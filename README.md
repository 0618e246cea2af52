# Itineos route planner — a Dafny model of its core

Itineos plans a day of travel for visitors to Japan. The user types the places to visit, an
optional mood, an optional current position and travel preferences. The backend then does five things:

- geocodes every place name;
- computes the driving, walking or transit legs between consecutive stops with the Google Maps
  Directions API;
- fetches current weather and a 24-hour forecast for every stop, on a best-effort basis;
- asks Gemini for recommended spots when a mood was given;
- sums the durations and distances.

The frontend form builds that request, and the result view formats the answer. A small script
writes the API keys read from a `.env` file into `env.json`.

The model keeps the services' own structure:

- `Maps` (maps.dfy), `Weather` (weather.dfy) and `Gemini` (gemini.dfy) are the three services.
  Each is an immutable value whose HTTP or SDK endpoint is a function-valued field (an oracle
  returning the parsed body or an error).
- `RouteGeneration` (route_generator.dfy) is the generator that composes them.
- `RouteFormState` (route_form.dfy) is the form: a class whose methods update its state as the
  React state setters do.
- `RouteResultView` (route_result.dfy) holds the pure display helpers of the result view.
- `LoadEnv` (load_env.dfy) is the env loader.

Supporting modules:

- `Types`: the records of `types.ts`.
- `JsValues`: JavaScript values, `??`, `||`, optional chaining and `Number(...)`.
- `Strings`: `trim`, `split`, `join`, `includes`, `toLowerCase`, number printing.
- `Wrappers`: `Option`, `Result` and the "first failure wins" aggregation that `Promise.all` and a
  sequential loop with `throw` both perform.

Each loop in the source becomes a method with a loop, proved equal to a specification function:

- the segment loop of `calculateRoute`;
- the `forEach` over `.env` lines;
- the nearest-forecast scans;
- the geocoding and weather fan-outs.

The properties the code promises are lemmas about those functions.

## Model

| member | source | states |
|---|---|---|
| Wrappers.Collect | backend/src/services/routeGenerator.ts:84 | awaiting results in order: a success has one value per result, and a failure is one of the results' failures (CollectOk and CollectErr pin which) |
| Wrappers.FirstErr | backend/src/services/routeGenerator.ts:84 | the position of the first failed result: none iff every result succeeded, otherwise a failure with only successes before it |
| Wrappers.CollectOk | backend/src/services/routeGenerator.ts:84 | aggregating results succeeds iff every result succeeded, and then yields exactly their values, in order |
| Wrappers.CollectErr | backend/src/services/routeGenerator.ts:84 | aggregating results fails iff some result failed, and then with the error of the first failure |
| Wrappers.SuccessesAllOk | backend/src/services/routeGenerator.ts:43-44 | when no result failed, filtering out failures keeps every value, in order |
| Wrappers.SuccessesAppend | backend/src/services/routeGenerator.ts:44 | filtering failures out of two runs of results filters each run |
| Strings.TrimStart | backend/scripts/load-env.js:16 | the result is a suffix of the text that does not start with whitespace |
| Strings.TrimStartCutsWhitespace | backend/scripts/load-env.js:16 | every character `trimStart` removes is whitespace, so the result is the longest suffix without leading whitespace |
| Strings.TrimEnd | backend/scripts/load-env.js:16 | the result is a prefix of the text that does not end with whitespace |
| Strings.TrimEndCutsWhitespace | backend/scripts/load-env.js:16 | every character `trimEnd` removes is whitespace, so the result is the longest prefix without trailing whitespace |
| Strings.TrimIsInfix | backend/scripts/load-env.js:16 | `trim` leaves a contiguous piece of the text with no whitespace at either end, and everything cut off on either side is whitespace |
| Strings.Trim | backend/scripts/load-env.js:16 | `trim`; specified by TrimIsInfix, TrimEmpty and TrimIdempotent |
| Strings.TrimEmpty | frontend/src/components/RouteForm.tsx:56 | a text trims to `''` iff it is all whitespace |
| Strings.TrimIdempotent | frontend/src/components/RouteForm.tsx:64 | trimming twice is trimming once |
| Strings.TrimKeepsFirst | backend/scripts/load-env.js:16-18 | a text starting with a non-space character keeps that character when trimmed |
| Strings.IndexOf | backend/scripts/load-env.js:18 | the position of the first occurrence of a character |
| Strings.LastIndexOf | backend/src/services/gemini.ts:123 | the position of the last occurrence of a character |
| Strings.Split | backend/scripts/load-env.js:15 | `split` on one character yields at least one piece, none containing the separator |
| Strings.Join | backend/scripts/load-env.js:19 | `join`; specified by JoinSplit and SplitJoin |
| Strings.JoinSplit | backend/scripts/load-env.js:18-19 | joining the pieces of a split with the same separator gives the text back |
| Strings.SplitJoin | backend/scripts/load-env.js:18-19 | splitting a join of separator-free pieces gives the pieces back |
| Strings.SplitFirst | backend/scripts/load-env.js:18-19 | the first piece is the text before the first separator, and the remaining pieces re-joined are the text after it |
| Strings.ContainsAt | frontend/src/components/RouteResult.tsx:41-46 | `includes` holds iff the piece occurs at some position |
| Strings.Lower | frontend/src/components/RouteResult.tsx:40 | `toLowerCase` maps each character, keeping the length |
| Strings.LowerIdempotent | frontend/src/components/RouteResult.tsx:40 | lower-casing twice is lower-casing once |
| Strings.NatToString | frontend/src/components/RouteResult.tsx:14-16 | a number prints as digits with no leading zero |
| Strings.NatToStringRoundTrip | frontend/src/components/RouteResult.tsx:14-16 | reading printed digits back gives the number |
| JsValues.FirstDefined | backend/src/services/weather.ts:58 | a `??` chain yields the first candidate that is neither null nor undefined, else the fallback |
| JsValues.FirstTruthy | backend/src/services/weather.ts:59-64 | an `\|\|` chain yields the first truthy candidate, else the fallback |
| JsValues.DefinedKeepsFalsyValues | backend/src/services/weather.ts:58-64 | a present `0` or `''` is kept by `??` but skipped by `\|\|` |
| JsValues.At | backend/src/services/weather.ts:60 | `v?.[i]` reads an array element, the one-character string at that index of a string, or an object key; it is undefined past the end and on numbers, booleans, null and undefined |
| JsValues.StringToNumberNeedsDigits | backend/src/services/weather.ts:103 | `Number('')` of blank text is 0, and any other text that converts holds a digit |
| JsValues.StringToNumberReadsDecimal | backend/src/services/weather.ts:103 | a converted text of digits has their decimal value, negated after a `-` sign and unchanged after a `+` sign |
| JsValues.ToNumber | backend/src/services/weather.ts:103 | a number converts to itself, `null` to 0, `undefined` and objects to NaN |
| Maps.MapTransportationMode | backend/src/services/maps.ts:134-145 | the request mode is one of walking, transit or driving, and anything else becomes driving |
| Maps.MapTravelModeToTransportation | backend/src/services/maps.ts:147-158 | walking and transit map to themselves, and anything else to driving |
| Maps.ModeNamesRoundTrip | backend/src/services/maps.ts:134-158 | a mode's name maps back to the mode, and every request mode maps to a segment mode of the same name |
| Maps.PreferredTravelMode | backend/src/services/maps.ts:57 | no preference, or `'mixed'`, travels by driving |
| Maps.DetermineTransportationFromStep | backend/src/services/maps.ts:160-168 | a step is transit iff it has transit details, and walking iff it has none and its mode is walking |
| Maps.AvoidTollsLostAsWritten | backend/src/services/maps.ts:68-69 | with both avoid options set, the request as written loses `tolls` and the corrected one keeps it |
| Maps.AvoidParam | backend/src/services/maps.ts:68-69 | `tolls` is avoided iff requested, `highways` is avoided iff requested, and nothing else |
| Maps.StripTags | backend/src/services/maps.ts:81 | removing HTML tags shortens the text, keeps only its characters and leaves no tag |
| Maps.StripTagsKeepsText | backend/src/services/maps.ts:81 | text before the first `<` is kept unchanged, in front of whatever the rest strips to |
| Maps.StripTagsDropsTag | backend/src/services/maps.ts:81 | a tag `<…>` at the front is removed entirely, up to and including its first `>` |
| Maps.StripTagsIsSubsequence | backend/src/services/maps.ts:81 | the stripped text is a subsequence of the original |
| Maps.StripTagsFixesTagless | backend/src/services/maps.ts:81 | text with no tag is unchanged |
| Maps.StripTagsIdempotent | backend/src/services/maps.ts:81 | stripping twice is stripping once |
| Maps.StepFromUpstream | backend/src/services/maps.ts:80-85 | a step's instruction has no tags, and its mode comes from its transit details and travel mode |
| Maps.SegmentFromPayload | backend/src/services/maps.ts:73-95 | a response yields a segment iff its status is OK and it has a route with a leg; a non-OK status or no route is the directions error; a segment copies endpoints, distance, duration, every step and the polyline |
| Maps.DirectionsQueryFor | backend/src/services/maps.ts:60-71 | the query carries the preferred mode and the avoid parameter |
| Maps.CalculateSegment | backend/src/services/maps.ts:47-100 | a segment is found iff the call succeeds and its response yields one, joins the two given stops, and every failure carries the route-error prefix |
| Maps.PairSegments | backend/src/services/maps.ts:33-39 | one segment request per consecutive pair of stops, in order |
| Maps.RouteShape | backend/src/services/maps.ts:19-42 | a computed route has one segment per consecutive pair, each the segment between those stops |
| Maps.RouteFailure | backend/src/services/maps.ts:27-39 | fewer than two stops is an error; otherwise the route fails iff some pair fails, with the first failing pair's error, after only successes |
| Maps.Route | backend/src/services/maps.ts:19-42 | a computed route needs at least two stops and has one segment fewer than the stops; every failure is the too-few-stops error or carries the route-error prefix (RouteShape and RouteFailure pin the segments and the error) |
| Maps.CalculateRoute | backend/src/services/maps.ts:19-42 | the loop computes the route specification |
| Maps.GeocodeLocation | backend/src/services/maps.ts:105-132 | a place is found iff the call succeeds with status OK and a result; it then keeps the name and takes the first result's position and address; failures carry the geocoding prefix |
| Weather.QueryFor | backend/src/services/weather.ts:44-51 | both endpoints are queried at the location, in metric units and English |
| Weather.Body | backend/src/services/weather.ts:53 | a missing body reads as `{}` |
| Weather.Condition | backend/src/services/weather.ts:59-64 | the condition is never empty; it prefers `conditions[0].main` and defaults to `'Unknown'` |
| Weather.CurrentObject | backend/src/services/weather.ts:56 | the current reading comes from `current`, `currently`, `current_weather` or the body, the first that is truthy |
| Weather.Reading | backend/src/services/weather.ts:58-73 | no field is missing; the first keys of each chain win when present; a non-object reads as the defaults |
| Weather.CurrentFromPayload | backend/src/services/weather.ts:53-73 | every current field is present and the condition is never empty (CurrentFirstKeysWin, CurrentDefaults and CurrentPrefersNested pin which keys win) |
| Weather.CurrentWeatherAt | backend/src/services/weather.ts:43-74 | the current reading succeeds iff the call does, with the call's error otherwise |
| Weather.CurrentFirstKeysWin | backend/src/services/weather.ts:56-65 | a top-level `temp` and `humidity` are kept even when zero |
| Weather.CurrentDefaults | backend/src/services/weather.ts:53-66 | an empty response reads as 0, `'Unknown'`, 0, 0 |
| Weather.CurrentPrefersNested | backend/src/services/weather.ts:56 | readings under `current` win over top-level keys |
| Weather.Truncate | backend/src/services/weather.ts:103 | truncation toward zero, as a `Date` holds its time value |
| Weather.TimeValue | backend/src/services/weather.ts:103-106 | `new Date(s * 1000).getTime()` is the truncated milliseconds within the Date range, and NaN outside it |
| Weather.Distance | backend/src/services/weather.ts:103-106 | a measured distance to the target time is never negative, and a missing entry has none |
| Weather.Distances | backend/src/services/weather.ts:104-106 | one distance per entry, in order |
| Weather.ClosestIsClosest | backend/src/services/weather.ts:102-111 | when the first entry has no usable time (NaN) it stays chosen; otherwise the chosen entry has the least distance and every earlier entry is strictly farther |
| Weather.ClosestUnique | backend/src/services/weather.ts:107 | at most one index is closest in that sense: ties go to the earliest |
| Weather.FirstNullish | backend/src/services/weather.ts:103-105 | the first entry that is null or undefined, if any |
| Weather.ScanIndexIsClosest | backend/src/services/weather.ts:102-111 | scanning a prefix keeps the closest entry of that prefix |
| Weather.ClosestEntry | backend/src/services/weather.ts:100-125 | the nearest-entry scan; specified by ClosestEntryIsClosest and ClosestUnique |
| Weather.ClosestEntryIsClosest | backend/src/services/weather.ts:100-125 | the scan succeeds iff no entry is missing, returns a closest entry, and otherwise fails with the property-read error of the first missing entry |
| Weather.SelectClosest | backend/src/services/weather.ts:102-111 | the scan loop computes the closest-entry specification |
| Weather.ScanStopsAt | backend/src/services/weather.ts:103-105 | the scan fails at the first missing entry |
| Weather.ForecastSource | backend/src/services/weather.ts:92-126 | `daily[1] \|\| daily[0]` first, else the closest hourly entry, else the closest list entry, else `null` |
| Weather.ForecastFromEntry | backend/src/services/weather.ts:129-137 | no forecast field is missing, and a missing entry reads as the defaults |
| Weather.ForecastFromPayload | backend/src/services/weather.ts:89-137 | the forecast succeeds iff a source entry is found, and is that entry's reading |
| Weather.NoSourceDefaults | backend/src/services/weather.ts:92-137 | with no forecast array, the forecast is 0, `'Unknown'`, 0 |
| Weather.ForecastKeepsPresentZero | backend/src/services/weather.ts:129-131 | a present zero temperature and rain are kept |
| Weather.ConditionSkipsEmpty | backend/src/services/weather.ts:130 | an empty condition falls through to the next key |
| Weather.GetForecastFromPayload | backend/src/services/weather.ts:89-137 | the branches and scans compute the forecast specification |
| Weather.ForecastAt | backend/src/services/weather.ts:79-138 | a failed call fails the forecast, otherwise the payload decides |
| Weather.WeatherAt | backend/src/services/weather.ts:22-38 | the weather is found iff both readings are; each failure carries the weather prefix, the current reading's failure first |
| Weather.GetWeather | backend/src/services/weather.ts:22-38 | the two calls compute the weather specification |
| Gemini.BracketSpan | backend/src/services/gemini.ts:123 | the greedy match spans from the first opening to the last closing bracket, and there is none iff no opening bracket precedes a closing one |
| Gemini.NoPairAfterLastClose | backend/src/services/gemini.ts:123 | when the first opening bracket is not before the last closing one, no opening bracket precedes any closing one |
| Gemini.Extract | backend/src/services/gemini.ts:123 | a match exists iff a span does, and it starts and ends with the brackets |
| Gemini.SpotFromRec | backend/src/services/gemini.ts:130-140 | a spot keeps the name, position and address; a missing description or reason becomes `''` |
| Gemini.ParseRecommendations | backend/src/services/gemini.ts:120-145 | no match or unparsable JSON gives no spots; otherwise one spot per parsed record, in order |
| Gemini.SpotsNameTheirLocations | backend/src/services/gemini.ts:131-134 | every spot's location carries the spot's name |
| Gemini.PlaceText | backend/src/services/gemini.ts:87 | the address when it is non-empty, else `lat, lng` |
| Gemini.LocationListLines | backend/src/services/gemini.ts:87 | the list has exactly one line per planned location, in order |
| Gemini.CurrentLocText | backend/src/services/gemini.ts:88-90 | the current-location line is present iff a current location is given |
| Gemini.BuildRecommendationPrompt | backend/src/services/gemini.ts:82-118 | the prompt; specified by PromptQuotesMood, PromptListsLocations and LocationListLines |
| Gemini.PromptQuotesMood | backend/src/services/gemini.ts:94 | the prompt quotes the mood |
| Gemini.PromptListsLocations | backend/src/services/gemini.ts:95-96 | the prompt lists the planned locations under their heading |
| Gemini.RecommendSpots | backend/src/services/gemini.ts:21-40 | a failed generation gives no spots; otherwise the parsed spots of the reply |
| Gemini.AnalyzeLocationRequest | backend/src/services/gemini.ts:45-80 | a failed call or unparsable JSON gives back the request as the only location; a reply with no object gives no locations; otherwise the parsed object |
| RouteGeneration.NotFound | backend/src/services/routeGenerator.ts:80 | the geocoding error names the place |
| RouteGeneration.Lookup | backend/src/services/routeGenerator.ts:77-81 | a lookup fails iff geocoding fails, with the not-found error; otherwise it is the geocoded place |
| RouteGeneration.Lookups | backend/src/services/routeGenerator.ts:77-82 | one lookup per name, in order |
| RouteGeneration.GeocodeAll | backend/src/services/routeGenerator.ts:76-85 | all names geocoded gives one place per name, and a failure is the not-found error of one of the names (GeocodeAllShape pins the first) |
| RouteGeneration.GeocodeAllShape | backend/src/services/routeGenerator.ts:76-85 | geocoding every name succeeds iff each does, giving one place per name, in order; otherwise it fails with the not-found error of the first failing name |
| RouteGeneration.GeocodeLocations | backend/src/services/routeGenerator.ts:76-85 | the loop computes the geocoding specification |
| RouteGeneration.AllLocations | backend/src/services/routeGenerator.ts:26-28 | a current position becomes a first stop named `Current Location`, ahead of the geocoded places |
| RouteGeneration.Sum | backend/src/services/routeGenerator.ts:57-58 | the `reduce` from 0; specified by SumAppend and SumBoundsTerms |
| RouteGeneration.SumAppend | backend/src/services/routeGenerator.ts:57-58 | the sum of two runs is the sum of the sums |
| RouteGeneration.SumBoundsTerms | backend/src/services/routeGenerator.ts:57-58 | a sum of non-negative terms is non-negative and bounds each term |
| RouteGeneration.Durations | backend/src/services/routeGenerator.ts:57 | each segment's duration, in order |
| RouteGeneration.Distances | backend/src/services/routeGenerator.ts:58 | each segment's distance, in order |
| RouteGeneration.TotalsSplit | backend/src/services/routeGenerator.ts:57-58 | totals start at zero and add up over a split of the route |
| RouteGeneration.WeatherResults | backend/src/services/routeGenerator.ts:37-43 | one weather request per stop, in order |
| RouteGeneration.Recommendations | backend/src/services/routeGenerator.ts:47-54 | without a mood there are no recommendations |
| RouteGeneration.FetchWeather | backend/src/services/routeGenerator.ts:37-44 | the weather loop keeps exactly the successful results, in order |
| RouteGeneration.Generate | backend/src/services/routeGenerator.ts:20-71 | `generateRoute`; specified by GeocodeFailureIsFatal, RouteIsPassedThrough, ResponseRouteShape, WeatherIsBestEffort, AllWeatherKept, TotalsAreSums, RecommendationsNeedMood and SpotsOmittedWhenEmpty |
| RouteGeneration.GenerateRoute | backend/src/services/routeGenerator.ts:20-71 | the steps compute the generation specification |
| RouteGeneration.GeocodeFailureIsFatal | backend/src/services/routeGenerator.ts:23-34 | a place that cannot be geocoded fails the whole request, with the not-found error of the first such place |
| RouteGeneration.RouteIsPassedThrough | backend/src/services/routeGenerator.ts:31-61 | a routing failure fails the request, and a computed route is returned unchanged |
| RouteGeneration.ResponseRouteShape | backend/src/services/routeGenerator.ts:26-34 | the route has one segment fewer than the stops, and starts at `Current Location` when a position was given |
| RouteGeneration.WeatherIsBestEffort | backend/src/services/routeGenerator.ts:37-44 | whether the request succeeds does not depend on the weather service; the response keeps the successful readings, at most one per stop |
| RouteGeneration.AllWeatherKept | backend/src/services/routeGenerator.ts:37-44 | when every stop's weather succeeds, the response has one reading per stop, in stop order |
| RouteGeneration.TotalsAreSums | backend/src/services/routeGenerator.ts:57-58 | the totals are the sums of the segments' durations and distances |
| RouteGeneration.RecommendationsNeedMood | backend/src/services/routeGenerator.ts:47-65 | without a mood Gemini is not consulted and no spots are returned; with one, it gets all stops and the current-location stop when there is one |
| RouteGeneration.SpotsOmittedWhenEmpty | backend/src/services/routeGenerator.ts:65 | returned spots are never an empty list: none are returned iff there were none |
| LoadEnv.KeyAndRest | backend/scripts/load-env.js:18-19 | the key is the text before the first `=`, and the value everything after it |
| LoadEnv.ParseLine | backend/scripts/load-env.js:16-22 | a stored key and value are non-empty and trimmed, and a trimmed line that is not a comment and holds a non-empty key before its first `=` and non-blank text after it is stored as those two trimmed pieces |
| LoadEnv.KeyStaysNonEmpty | backend/scripts/load-env.js:16-20 | a non-empty key part of a non-blank line stays non-empty when trimmed |
| LoadEnv.LineSplitsAtFirstEquals | backend/scripts/load-env.js:16-22 | a line is stored iff, trimmed, it is non-empty, not a `#` comment, and has a non-empty key before its first `=` and non-blank text after it; the pair is those two pieces trimmed |
| LoadEnv.IgnoredLines | backend/scripts/load-env.js:17-22 | blank lines, comments, lines without `=`, and empty keys or values store nothing |
| LoadEnv.Entries | backend/scripts/load-env.js:15-23 | one entry per line, in file order |
| LoadEnv.StoreAll | backend/scripts/load-env.js:20-22 | storing the pairs in line order; specified by LastLineWins and StoredPairsAreClean |
| LoadEnv.EnvFromLines | backend/scripts/load-env.js:15-23 | the variables read from the lines; specified by FileVariablesAreClean and ReadEnvVars |
| LoadEnv.StoredPairsAreClean | backend/scripts/load-env.js:20-22 | every stored key and value is non-empty and trimmed |
| LoadEnv.FileVariablesAreClean | backend/scripts/load-env.js:14-23 | the variables read from any file are clean |
| LoadEnv.LastDefining | backend/scripts/load-env.js:20-22 | the last line that stores a key, if any |
| LoadEnv.LastLineWins | backend/scripts/load-env.js:20-22 | a key is stored iff some line stores it, with the value from the last such line |
| LoadEnv.StoreStep | backend/scripts/load-env.js:20-22 | each line updates the stored variables by its own pair only |
| LoadEnv.ReadEnvVars | backend/scripts/load-env.js:14-23 | the line loop computes the variables specification |
| LoadEnv.Setting | backend/scripts/load-env.js:34-37 | the file's non-empty value wins, then the process environment's, else `''` |
| LoadEnv.EnvVars | backend/scripts/load-env.js:10-23 | no file gives no variables; specified by NoFileUsesProcessEnv and FileOverridesProcessEnv |
| LoadEnv.EnvJson | backend/scripts/load-env.js:38 | `NODE_ENV` is always `development` |
| LoadEnv.NoFileUsesProcessEnv | backend/scripts/load-env.js:10-37 | without a file the keys come from the process environment |
| LoadEnv.FileOverridesProcessEnv | backend/scripts/load-env.js:20-37 | for any key, and so for both keys written out, a value set in the file overrides the process environment, and the last line setting it wins |
| LoadEnv.LoadEnvFile | backend/scripts/load-env.js:5-44 | the script writes the parameters specification |
| RouteFormState.Without | frontend/src/components/RouteForm.tsx:25 | removing an index drops exactly that entry; an out-of-range index changes nothing |
| RouteFormState.NonBlankIsTrimNonEmpty | frontend/src/components/RouteForm.tsx:56 | a field is kept iff it has some non-whitespace text |
| RouteFormState.ValidLocations | frontend/src/components/RouteForm.tsx:56 | the kept fields are non-blank and no more than the fields |
| RouteFormState.ValidLocationsKeeps | frontend/src/components/RouteForm.tsx:56 | every kept entry comes from the form, and every non-blank entry is kept |
| RouteFormState.ValidLocationsAppend | frontend/src/components/RouteForm.tsx:56 | filtering respects form order |
| RouteFormState.ValidLocationsIdempotent | frontend/src/components/RouteForm.tsx:56 | filtering twice is filtering once |
| RouteFormState.SubmitRequest | frontend/src/components/RouteForm.tsx:54-72 | nothing is submitted iff every field is blank; otherwise the kept names, the trimmed mood when non-empty, the position and all preferences |
| RouteFormState.SubmittedNamesAreNonBlank | frontend/src/components/RouteForm.tsx:56-66 | a submitted request names at least one place, none blank, and a submitted mood is trimmed and non-empty |
| RouteFormState.RouteForm.constructor | frontend/src/components/RouteForm.tsx:12-17 | one empty field, no mood or position, mixed travel, nothing avoided |
| RouteFormState.RouteForm.AddLocationField | frontend/src/components/RouteForm.tsx:19-21 | appends one empty field and changes nothing else |
| RouteFormState.RouteForm.RemoveLocationField | frontend/src/components/RouteForm.tsx:23-27 | drops the field unless it is the only one, so there is always a field |
| RouteFormState.RouteForm.UpdateLocation | frontend/src/components/RouteForm.tsx:29-33 | replaces exactly the given field |
| RouteFormState.RouteForm.SetMood | frontend/src/components/RouteForm.tsx:13 | sets the mood only |
| RouteFormState.RouteForm.SetCurrentLocation | frontend/src/components/RouteForm.tsx:35-52 | a position obtained sets the current location only |
| RouteFormState.RouteForm.SetTransportation | frontend/src/components/RouteForm.tsx:15 | sets an offered mode only |
| RouteFormState.RouteForm.SetAvoid | frontend/src/components/RouteForm.tsx:16-17 | sets the two avoid options only |
| RouteFormState.RouteForm.HandleSubmit | frontend/src/components/RouteForm.tsx:54-72 | submits the request specification for the current state |
| RouteResultView.JsRem | frontend/src/components/RouteResult.tsx:12 | JavaScript `%`: the remainder of division truncated toward zero, so it lies in `[0, b)` for a non-negative dividend and in `(-b, 0]` for a negative one |
| RouteResultView.DurationParts | frontend/src/components/RouteResult.tsx:11-12 | whole hours and whole minutes of a duration, the minutes below 60 |
| RouteResultView.FormatDuration | frontend/src/components/RouteResult.tsx:10-17 | `formatDuration`; specified by FormatDurationReadsBack and HoursShownFromOneHour |
| RouteResultView.NumberHasNoUnits | frontend/src/components/RouteResult.tsx:14-16 | a printed number never holds the hour unit |
| RouteResultView.HoursShownFromOneHour | frontend/src/components/RouteResult.tsx:13-16 | hours are shown iff the duration is at least one hour |
| RouteResultView.ReadNumber | frontend/src/components/RouteResult.tsx:14-16 | a number is read back iff the text is non-empty digits |
| RouteResultView.ReadHoursAndMinutes | frontend/src/components/RouteResult.tsx:14 | `H時間M分` reads back as H hours and M minutes |
| RouteResultView.ReadMinutes | frontend/src/components/RouteResult.tsx:16 | `M分` reads back as M minutes |
| RouteResultView.FormatDurationReadsBack | frontend/src/components/RouteResult.tsx:10-17 | a non-negative duration's text reads back as its whole minutes: no information but the seconds is lost |
| RouteResultView.FormatDistance | frontend/src/components/RouteResult.tsx:19-24 | under 1000 m the text ends in `m`, otherwise kilometres |
| RouteResultView.MetresReadBack | frontend/src/components/RouteResult.tsx:23 | a distance under 1000 m prints as its own digits |
| RouteResultView.TransportationIcon | frontend/src/components/RouteResult.tsx:26-37 | each segment mode has its own icon, and every other value the pin |
| RouteResultView.SegmentModesHaveDistinctIcons | frontend/src/components/RouteResult.tsx:26-37 | two segment modes share an icon iff they are the same mode |
| RouteResultView.FirstRuleIcon | frontend/src/components/RouteResult.tsx:41-47 | the icon of the first rule whose keywords occur, else the default |
| RouteResultView.WeatherIcon | frontend/src/components/RouteResult.tsx:39-48 | `getWeatherIcon`; specified by WeatherIconFollowsRules, WeatherIconIgnoresCase and EarlierRuleWins |
| RouteResultView.WeatherIconFollowsRules | frontend/src/components/RouteResult.tsx:39-48 | the weather icon follows the keyword rules in order on the lower-cased condition |
| RouteResultView.WeatherIconIgnoresCase | frontend/src/components/RouteResult.tsx:40 | the icon does not depend on letter case |
| RouteResultView.EarlierRuleWins | frontend/src/components/RouteResult.tsx:43-46 | a cloudy thunderstorm shows the cloud, because the earlier rule wins |
| RouteResultView.ConditionIcon | frontend/src/components/RouteResult.tsx:117 | a weather card has an icon iff its condition is text |
| RouteResultView.VisibleSteps | frontend/src/components/RouteResult.tsx:90 | at most the first five steps are listed |
| RouteResultView.HiddenStepCount | frontend/src/components/RouteResult.tsx:95-99 | the "others" count appears iff there are more than five steps, and is then positive |
| RouteResultView.StepsAccountedFor | frontend/src/components/RouteResult.tsx:90-99 | listed plus counted steps are all the steps |

## Left out

- HTTP, the Google Maps and Gemini SDK calls and their transport errors are oracle fields of the
  service values. The constructors' API-key checks and all console logging are not modelled.
- `Promise.all` runs the geocoding and weather requests concurrently. When several geocodings fail,
  JavaScript reports whichever rejects first in time; the model reports the first in list order.
  `getWeather` fetches current weather and forecast concurrently; the model makes the current call
  first.
- The clock: `new Date()` is the `target` parameter, in milliseconds, already 24 hours ahead.
- Floating-point arithmetic: temperatures and positions are `real`. `toFixed(1)` kilometres stay
  symbolic (`DistanceText.Kilometres`). Coordinates print through the `numberText` oracle of the
  Gemini service.
- `JSON.parse` is an oracle of the Gemini service, and so is the generative model itself. The
  greedy regular expressions are modelled as the span from the first opening to the last closing
  bracket.
- JsValues.StringToNumber: reads signed decimal integers and blank text only. Other numeric forms
  (fractions, exponents, hexadecimal, `Infinity`) give NaN in the model.
- Strings.Lower: maps only the ASCII letters. Other case mappings of `toLowerCase` are not
  modelled.
- Maps.DirectionsQueryFor: sends the corrected `avoid` list (`tolls|highways` when both are
  asked for). The code as written sends only `highways` then; see "Findings". `CalculateSegment`,
  `Route` and `Generate` therefore model the corrected request.
- Gemini.SpotFromRec: the parsed records are typed. In the source, an element that is a number,
  a string or an object missing fields still gives a spot, with `undefined` fields; the typed
  `Rec` cannot hold that.
- Gemini.BuildRecommendationPrompt: the fixed wording of the prompts is paraphrased. The mood
  quoting, the location list and the current-location line are kept.
- RouteFormState.RouteForm.UpdateLocation: requires an index inside the list. The React handler
  is only ever called with the index of a rendered field, and an out-of-range write (which would
  extend a JavaScript array) is not modelled.
- File I/O in the env loader: the `.env` contents come in as an optional string, and the written
  `env.json` is the returned value. Keys such as `__proto__`, which behave specially in a
  JavaScript object, are treated as ordinary keys.
- React rendering, the browser geolocation API, `alert` and the loading flags are not modelled.
  Of the weather card, only its icon is modelled.
- The Directions and Geocoding payloads are typed records (status, routes, legs, steps, results)
  rather than arbitrary JSON.
- The Express server in `backend/src/index.ts`, `frontend/src/lib/api.ts` and the Next.js page are
  not part of this model.

## Findings

| source | as written | input that shows it | evidently intended | confidence | as-written member | corrected member |
|---|---|---|---|---|---|---|
| backend/src/services/maps.ts:68-69 | the `{avoid: 'tolls'}` spread is followed by the `{avoid: 'highways'}` spread, which overwrites the same key | `avoidTolls = avoidHighways = true`: the request asks only to avoid highways | `avoid=tolls\|highways`, avoiding both | not executed | Maps.AvoidTollsLostAsWritten | Maps.AvoidParam |
