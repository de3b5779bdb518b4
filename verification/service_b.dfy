/** The resolution service (service-b/main.go): temperatureHandler with its two
    provider lookups, getLocation and getWeather. The providers are oracles: a lookup
    is given what its HTTP call and JSON decoding produced. */
module ServiceB {
  import opened Wrappers
  import opened Tracing
  import opened Http
  import ZipCode

  /** One provider GET: client.Get failed, the body did not decode into the expected
      shape, or it decoded to `value`. */
  datatype Fetch<T> = TransportError(err: string) | DecodeError(err: string) | Decoded(value: T)

  /** A lookup's Go result pair, value and error, with the events it traced. */
  datatype Lookup<T> = Lookup(value: T, err: Option<string>, events: seq<Event>)

  /** The inbound request: the `zipcode` query parameter ("" when absent), the
      traceparent header, and the trace of the request context the server gave it. */
  datatype Request = Request(zipCode: string, traceparent: Carrier, ctx: Context)

  /** What the two providers answer: `localidade`, then `current.temp_c`. */
  datatype Providers = Providers(location: Fetch<string>, weather: Fetch<real>)

  const InitialSpanPrefix := "SPAN_INICIAL "
  const LocationSpan := "Chamada externa: getLocation"
  const WeatherSpan := "Chamada externa: getWeather"
  const ViaCepPrefix := "https://viacep.com.br/ws/"
  const ViaCepSuffix := "/json/"

  const InvalidZipCode := "invalid zipcode"
  const ZipCodeNotFound := "can not find zipcode"
  const WeatherFailed := "failed to get weather info"

  /** The postal-code provider's URL; the code can be read back from it. */
  function LocationUrl(zipCode: string): (url: string)
    ensures |url| == |ViaCepPrefix| + |zipCode| + |ViaCepSuffix|
    ensures url[..|ViaCepPrefix|] == ViaCepPrefix
    ensures url[|ViaCepPrefix|..|url| - |ViaCepSuffix|] == zipCode
    ensures url[|url| - |ViaCepSuffix|..] == ViaCepSuffix
  {
    ViaCepPrefix + zipCode + ViaCepSuffix
  }

  /** getLocation: on a transport or decode failure the locality is "" and the error is
      set; otherwise the decoded locality, possibly "", with no error. Its span wraps
      the one request and is ended on every return path. */
  function GetLocation(t: TraceId, zipCode: string, provider: Fetch<string>): (r: Lookup<string>)
    ensures r.err.None? <==> provider.Decoded?
    ensures r.err.Some? ==> r.value == ""
    ensures provider.Decoded? ==> r.value == provider.value
    ensures WellNested(r.events) && SpansIn(r.events, t) && Starts(r.events, LocationSpan) == 1
    ensures Requests(r.events) == [Requested(LocationLookup(LocationUrl(zipCode)), None)]
  {
    var events := Wrapped(LocationSpan, t, LocationLookup(LocationUrl(zipCode)), None);
    match provider
    case TransportError(e) => Lookup("", Some(e), events)
    case DecodeError(e) => Lookup("", Some(e), events)
    case Decoded(city) => Lookup(city, None, events)
  }

  /** getWeather: on a failure the zero WeatherInfo (0 degrees) and the error; otherwise
      the decoded temperature. The weather URL, with its escaped query, is not modelled:
      the call is recorded by the locality it asks about. */
  function GetWeather(t: TraceId, city: string, provider: Fetch<real>): (r: Lookup<real>)
    ensures r.err.None? <==> provider.Decoded?
    ensures r.err.Some? ==> r.value == 0.0
    ensures provider.Decoded? ==> r.value == provider.value
    ensures WellNested(r.events) && SpansIn(r.events, t) && Starts(r.events, WeatherSpan) == 1
    ensures Requests(r.events) == [Requested(WeatherLookup(city), None)]
  {
    var events := Wrapped(WeatherSpan, t, WeatherLookup(city), None);
    match provider
    case TransportError(e) => Lookup(0.0, Some(e), events)
    case DecodeError(e) => Lookup(0.0, Some(e), events)
    case Decoded(celsius) => Lookup(celsius, None, events)
  }

  /** The reading for a Celsius temperature: Fahrenheit and Kelvin by the source's
      linear formulas (Kelvin offset 273, not 273.15); each scale converts back. */
  function Scales(city: string, celsius: real): (doc: Reading)
    ensures doc.city == city && doc.tempC == celsius
    ensures (doc.tempF - 32.0) / 1.8 == celsius
    ensures doc.tempK - 273.0 == celsius
  {
    Reading(city, celsius, celsius * 1.8 + 32.0, celsius + 273.0)
  }

  /** temperatureHandler. The traceparent injected back into the inbound request's own
      headers is never read again and is not modelled. */
  function TemperatureHandler(req: Request, requestName: string, newTrace: TraceId, p: Providers): (out: Exchange)
    ensures WellNested(out.events)
    ensures SpansIn(out.events, HandlerTrace(req.ctx, req.traceparent, newTrace))
    ensures |Requests(out.events)| <= 2
    ensures forall i | 0 <= i < |Requests(out.events)| :: Requests(out.events)[i].traceparent.None?
  {
    var t := HandlerTrace(req.ctx, req.traceparent, newTrace);
    var initial := Marker(InitialSpanPrefix + requestName, t);
    if |req.zipCode| != 8 then
      Exchange(HttpError(412, InvalidZipCode), initial)
    else
      var location := GetLocation(t, req.zipCode, p.location);
      var located := Then(initial, location.events);
      if location.err.Some? || location.value == "" then
        Exchange(HttpError(404, ZipCodeNotFound), located)
      else
        var weather := GetWeather(t, location.value, p.weather);
        var events := Then(located, weather.events);
        if weather.err.Some? then
          Exchange(HttpError(500, WeatherFailed), events)
        else
          Exchange(EncodeJson(Scales(location.value, weather.value)), events)
  }

  /** Every span the handler starts, including those of the two lookups, is ended
      exactly once, whichever path it takes. */
  lemma EverySpanEndedOnce(req: Request, requestName: string, newTrace: TraceId, p: Providers, name: string)
    ensures var out := TemperatureHandler(req, requestName, newTrace, p);
      Starts(out.events, name) == Ends(out.events, name)
  {
    WellNestedEndsEverySpanOnce(TemperatureHandler(req, requestName, newTrace, p).events, name);
  }

  /** A code whose length is not 8 bytes is refused with 412 before any provider call. */
  lemma WrongLengthRejected(req: Request, requestName: string, newTrace: TraceId, p: Providers)
    requires !ZipCode.HasZipCodeLength(req.zipCode)
    ensures var out := TemperatureHandler(req, requestName, newTrace, p);
      IsError(Respond(out.actions), 412, InvalidZipCode) && Requests(out.events) == []
  {
    HttpErrorReplies(412, InvalidZipCode);
  }

  /** Any eight bytes, digits or not, reach the postal-code provider, once, with that code. */
  lemma EightBytesReachLocationProvider(req: Request, requestName: string, newTrace: TraceId, p: Providers)
    requires ZipCode.HasZipCodeLength(req.zipCode)
    ensures var out := TemperatureHandler(req, requestName, newTrace, p);
      |Requests(out.events)| >= 1 && Requests(out.events)[0] == Requested(LocationLookup(LocationUrl(req.zipCode)), None)
  {
  }

  /** A failed lookup or an empty locality is "not found" (404), and the weather
      provider is never asked. */
  lemma UnknownLocalityNotFound(req: Request, requestName: string, newTrace: TraceId, p: Providers)
    requires ZipCode.HasZipCodeLength(req.zipCode)
    requires !p.location.Decoded? || p.location.value == ""
    ensures var out := TemperatureHandler(req, requestName, newTrace, p);
      && IsError(Respond(out.actions), 404, ZipCodeNotFound)
      && Requests(out.events) == [Requested(LocationLookup(LocationUrl(req.zipCode)), None)]
  {
    HttpErrorReplies(404, ZipCodeNotFound);
  }

  /** The weather provider is asked once, after the locality is known, for exactly
      that locality. */
  lemma WeatherAskedForResolvedLocality(req: Request, requestName: string, newTrace: TraceId, p: Providers)
    requires ZipCode.HasZipCodeLength(req.zipCode)
    requires p.location.Decoded? && p.location.value != ""
    ensures var out := TemperatureHandler(req, requestName, newTrace, p);
      Requests(out.events) == [
        Requested(LocationLookup(LocationUrl(req.zipCode)), None),
        Requested(WeatherLookup(p.location.value), None)]
  {
  }

  /** A failed weather lookup is an upstream failure (500); the locality is dropped. */
  lemma WeatherFailureIsInternalError(req: Request, requestName: string, newTrace: TraceId, p: Providers)
    requires ZipCode.HasZipCodeLength(req.zipCode)
    requires p.location.Decoded? && p.location.value != ""
    requires !p.weather.Decoded?
    ensures IsError(Respond(TemperatureHandler(req, requestName, newTrace, p).actions), 500, WeatherFailed)
  {
    HttpErrorReplies(500, WeatherFailed);
  }

  /** On success the reply is 200 JSON whose city is the resolved locality and whose
      temperatures come from the weather provider's reading. */
  lemma ResolvedReading(req: Request, requestName: string, newTrace: TraceId, p: Providers)
    requires ZipCode.HasZipCodeLength(req.zipCode)
    requires p.location.Decoded? && p.location.value != ""
    requires p.weather.Decoded?
    ensures IsJson(Respond(TemperatureHandler(req, requestName, newTrace, p).actions), 200,
                   Scales(p.location.value, p.weather.value))
  {
  }
}
