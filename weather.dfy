/** The weather page: the keyword classification behind the icon, the
    mapping of a wttr.in response, and the `fetchWeather` lookup. */
module Weather {
  import opened Wrappers
  import opened Text

  const WeatherUrl := "https://wttr.in/SantoDomingo?format=j1"
  const FetchError := "Error al obtener datos del clima. Intenta de nuevo."

  /** `getWeatherIcon`: ordered substring tests on the lower-cased text. */
  function WeatherIcon(description: string): (icon: string)
    ensures icon == "rainy" || icon == "cloudy" || icon == "sunny"
  {
    var desc := ToLower(description);
    if Contains(desc, "rain") || Contains(desc, "shower") then "rainy"
    else if Contains(desc, "cloud") then "cloudy"
    else if Contains(desc, "clear") || Contains(desc, "sunny") then "sunny"
    else "cloudy"
  }

  /** The priority order of the rules, each direction stated: rain or
      shower wins over everything; cloud wins over clear and sunny; clear
      or sunny alone give sunny; no keyword defaults to cloudy. */
  lemma WeatherIconPriority(description: string)
    ensures var d := ToLower(description);
      var wet := Contains(d, "rain") || Contains(d, "shower");
      var cloud := Contains(d, "cloud");
      var bright := Contains(d, "clear") || Contains(d, "sunny");
      && (WeatherIcon(description) == "rainy" <==> wet)
      && (WeatherIcon(description) == "sunny" <==> !wet && !cloud && bright)
      && (WeatherIcon(description) == "cloudy" <==> !wet && (cloud || !bright))
  {
  }

  /** The classification ignores case: it is unchanged by lower-casing the
      description first. */
  lemma WeatherIconCaseInsensitive(description: string)
    ensures WeatherIcon(ToLower(description)) == WeatherIcon(description)
  {
    ToLowerIdempotent(description);
  }

  /** A keyword in any letter case, anywhere in the description, is found:
      "Light RAIN" and "Patchy rain nearby" are both rainy. */
  lemma RainInAnyCase(description: string, keyword: string)
    requires ToLower(keyword) == "rain" || ToLower(keyword) == "shower"
    requires Contains(description, keyword)
    ensures WeatherIcon(description) == "rainy"
  {
    ContainsLower(description, keyword);
  }

  // ---------------------------------------------------------------------
  // Response mapping
  // ---------------------------------------------------------------------

  /** One element of `current_condition`; `weatherDesc` holds the `value`
      strings of its entries. */
  datatype Condition = Condition(
    tempC: string,
    weatherDesc: seq<string>,
    humidity: string,
    windspeedKmph: string,
    feelsLikeC: string)

  /** The response body; `None` when `current_condition` is absent. */
  datatype WeatherPayload = WeatherPayload(currentCondition: Option<seq<Condition>>)

  /** The stored snapshot; a number field is `None` when `parseInt` gave `NaN`. */
  datatype WeatherData = WeatherData(
    temperature: Option<int>,
    description: string,
    humidity: Option<int>,
    windSpeed: Option<int>,
    feelsLike: Option<int>,
    icon: string)

  /** The body of the `try` after the `await`: reading `current_condition[0]`
      and `weatherDesc[0]` throws when either is missing, so those payloads
      give `None` and take the error path. */
  function MapWeather(payload: WeatherPayload): (r: Option<WeatherData>)
    ensures r.Some? <==>
      && payload.currentCondition.Some?
      && |payload.currentCondition.value| > 0
      && |payload.currentCondition.value[0].weatherDesc| > 0
    ensures r.Some? ==>
      var current := payload.currentCondition.value[0];
      && r.value.description == current.weatherDesc[0]
      && r.value.icon == WeatherIcon(r.value.description)
      && r.value.temperature == ParseInt(current.tempC)
      && r.value.humidity == ParseInt(current.humidity)
      && r.value.windSpeed == ParseInt(current.windspeedKmph)
      && r.value.feelsLike == ParseInt(current.feelsLikeC)
  {
    match payload.currentCondition
    case None => None
    case Some(conditions) =>
      if |conditions| == 0 then None
      else
        var current := conditions[0];
        if |current.weatherDesc| == 0 then None
        else
          Some(WeatherData(
            ParseInt(current.tempC),
            current.weatherDesc[0],
            ParseInt(current.humidity),
            ParseInt(current.windspeedKmph),
            ParseInt(current.feelsLikeC),
            WeatherIcon(current.weatherDesc[0])))
  }

  /** A condition whose numbers were rendered as decimal integers maps to
      exactly those integers. */
  lemma MapWeatherReadsNumbers(temp: int, humidity: int, wind: int, feels: int, desc: string)
    ensures var c := Condition(IntToDecimal(temp), [desc], IntToDecimal(humidity),
                               IntToDecimal(wind), IntToDecimal(feels));
      MapWeather(WeatherPayload(Some([c]))) ==
        Some(WeatherData(Some(temp), desc, Some(humidity), Some(wind), Some(feels), WeatherIcon(desc)))
  {
    ParseIntRoundTrip(temp);
    ParseIntRoundTrip(humidity);
    ParseIntRoundTrip(wind);
    ParseIntRoundTrip(feels);
  }

  // ---------------------------------------------------------------------
  // The lookup
  // ---------------------------------------------------------------------

  class WeatherPage {
    var weather: Option<WeatherData>
    var loading: bool
    var error: string
    ghost var inFlight: multiset<string>

    /** The weather cards are rendered only when not loading. */
    predicate WeatherVisible()
      reads this
    {
      weather.Some? && !loading
    }

    /** The page as first rendered, before the mount effect runs: loading. */
    constructor ()
      ensures weather == None && loading && error == "" && inFlight == multiset{}
    {
      weather, loading, error := None, true, "";
      inFlight := multiset{};
    }

    /** `fetchWeather` up to its `await`: the previous snapshot is kept but
        hidden while loading. */
    method Begin() returns (request: string)
      modifies this
      ensures request == WeatherUrl
      ensures loading && error == "" && weather == old(weather) && !WeatherVisible()
      ensures inFlight == old(inFlight) + multiset{WeatherUrl}
    {
      loading := true;
      error := "";
      request := WeatherUrl;
      inFlight := inFlight + multiset{request};
    }

    /** The request resolved: a mapped snapshot replaces the old one; a
        payload that cannot be read sets the error and keeps the old one. */
    method CompleteOk(url: string, payload: WeatherPayload)
      requires url in inFlight
      modifies this
      ensures !loading
      ensures MapWeather(payload).Some? ==> weather == MapWeather(payload) && error == old(error)
      ensures MapWeather(payload).None? ==> weather == old(weather) && error == FetchError
      ensures inFlight == old(inFlight) - multiset{url}
    {
      match MapWeather(payload) {
        case Some(w) => weather := Some(w);
        case None => error := FetchError;
      }
      loading := false;
      inFlight := inFlight - multiset{url};
    }

    /** The request failed: the error is set and the old snapshot kept. */
    method CompleteErr(url: string)
      requires url in inFlight
      modifies this
      ensures !loading && error == FetchError && weather == old(weather)
      ensures inFlight == old(inFlight) - multiset{url}
    {
      error := FetchError;
      loading := false;
      inFlight := inFlight - multiset{url};
    }
  }

  /** A refresh that fails after a successful load shows the error card
      and the previous weather together. */
  method RefreshFailureKeepsWeather(payload: WeatherPayload)
    returns (shown: Option<WeatherData>, message: string)
    requires MapWeather(payload).Some?
    ensures shown == MapWeather(payload) && message == FetchError
  {
    var page := new WeatherPage();
    var r1 := page.Begin();
    page.CompleteOk(r1, payload);
    var r2 := page.Begin();
    page.CompleteErr(r2);
    assert page.WeatherVisible();
    shown, message := page.weather, page.error;
  }
}
