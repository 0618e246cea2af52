/** The request and response records exchanged by the route generator. */
module Types {
  import opened Wrappers
  import opened JsValues

  /** `currentLocation` of a request: a bare coordinate. */
  datatype Coords = Coords(lat: real, lng: real)

  /** A stop: geocoded, the synthetic current location, or a recommended spot. */
  datatype Location = Location(name: string, lat: real, lng: real, address: Option<string>)

  /** The three modes a segment or step can carry. */
  datatype Transportation = Walking | Transit | Driving
  {
    /** The string the mode is written as. */
    function Name(): string
    {
      match this
      case Walking => "walking"
      case Transit => "transit"
      case Driving => "driving"
    }
  }

  datatype RouteStep = RouteStep(instruction: string, distance: int, duration: int, transportation: Option<Transportation>)

  datatype RouteSegment = RouteSegment(
    from: Location, to: Location,
    distance: int,        // metres
    duration: int,        // seconds
    transportation: Transportation,
    steps: seq<RouteStep>,
    polyline: Option<string>)

  /** Current conditions; each field holds whatever the fallback chain picked from the payload. */
  datatype CurrentWeather = CurrentWeather(temperature: JsValue, condition: JsValue, humidity: JsValue, windSpeed: JsValue)

  /** The forecast for the next day, picked the same way. */
  datatype ForecastWeather = ForecastWeather(temperature: JsValue, condition: JsValue, precipitation: JsValue)

  datatype WeatherInfo = WeatherInfo(location: Location, current: CurrentWeather, forecast: Option<ForecastWeather>)

  datatype RecommendedSpot = RecommendedSpot(name: string, description: string, location: Location, reason: string)

  /** `transportation` is one of "walking", "transit", "driving", "mixed". */
  datatype Preferences = Preferences(transportation: Option<string>, avoidTolls: Option<bool>, avoidHighways: Option<bool>)

  datatype RouteRequest = RouteRequest(
    locations: seq<string>,
    mood: Option<string>,
    currentLocation: Option<Coords>,
    preferences: Option<Preferences>)

  datatype RouteResponse = RouteResponse(
    route: seq<RouteSegment>,
    totalDuration: int,
    totalDistance: int,
    weather: seq<WeatherInfo>,
    recommendedSpots: Option<seq<RecommendedSpot>>)
}
