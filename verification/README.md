# Postal code to temperature: request handling and trace propagation

A model of the two HTTP services of a two-hop pipeline. The entry service
(`service-a`) accepts `POST /zipcode` with a JSON body `{"cep": "..."}`, validates
the code and forwards it to the resolution service (`service-b`). The resolution
service turns the code into a locality through a postal-code provider (ViaCEP),
then into a temperature through a weather provider, and answers with the locality
and the temperature in Celsius, Fahrenheit and Kelvin. The entry service relays
that answer.

Each handler is a pure function. Its inputs are the request and the outcomes of
everything it cannot see: the JSON decoding of the body, the downstream call, and the
two provider lookups. It returns an `Http.Exchange`: the response-writer actions it
performed and the trace events it produced. `Http.Respond` turns the actions into
the response the client receives, following net/http's rule that the status and
headers are fixed by the first `WriteHeader` or `Write`. `Tracing.Event` records
spans started (with their trace id), spans ended, and outbound requests (with the
`traceparent` they carry), in order.

Modules:

- `ZipCode`: the entry service's regular-expression validator `^\d{8}$` and the
  resolution service's length check.
- `Tracing`: extract, inject and span start over an abstract trace id. It also
  defines the event log and the well-nestedness of spans.
- `Http`: the response writer, `http.Error`, and the JSON document both services
  exchange.
- `ServiceB`: `temperatureHandler`, `getLocation` and `getWeather`.
- `ServiceA`: `zipCodeHandler`, as written and with the two corrections listed under
  Findings; a `Revision` parameter picks between them.
- `Pipeline`: both services composed. The entry service's downstream call is answered
  by the resolution handler, run on the request the entry service sends.

Go strings are Dafny strings with one char per byte, so `|s|` is Go's `len(s)`.

Behaviour kept as the code has it:

- A failed location lookup (transport or decode error) is answered 404 "can not find
  zipcode", the same as an empty locality. It is not treated as an upstream failure.
- Both services answer 412 to a malformed code.
- The resolution service checks only that the code is 8 bytes long.
- The provider calls carry no `traceparent`: they use a plain `http.Client`.

## Model

| member | source | states |
|---|---|---|
| `ZipCode.IsValidZipCodeExactly` | service-a/main.go:188-191 | the `^\d{8}$` match holds exactly when the string is 8 characters, all ASCII digits |
| `ZipCode.DigitsThenEndExactly` | service-a/main.go:189 | `\d{n}$` matches a whole string exactly when it is n digits and nothing more |
| `ZipCode.TrailingNewlineRejected` | service-a/main.go:189 | `$` is not multi-line: any string followed by a newline is refused |
| `ZipCode.NonDigitRejected` | service-a/main.go:189 | separators are not stripped: any code holding a non-digit, such as `01310-900`, is refused |
| `ZipCode.ValidCodeHasZipCodeLength` | service-b/main.go:139 | every code the entry validator accepts passes the resolution service's length check |
| `ZipCode.LengthCheckAdmitsNonDigits` | service-b/main.go:139-142 | the length check is weaker: eight letters pass it but fail the validator |
| `Tracing.HandlerTrace` | service-a/main.go:132-137 | a request carrying a traceparent continues the caller's trace; otherwise the request context's trace, or a new one |
| `Tracing.InjectThenExtract` | service-a/main.go:134-139 | a context injected into a carrier is extracted back unchanged by any receiver |
| `Tracing.Marker` | service-a/main.go:136-137 | the initial span is opened and closed at once: balanced, in the handler's trace, no request inside |
| `Tracing.Wrapped` | service-b/main.go:190-191 | a span around one request, started once and ended once, in the caller's trace |
| `Tracing.WellNestedEndsEverySpanOnce` | service-b/main.go:215-216 | in a well-nested event log every span started is ended exactly once |
| `Http.HttpErrorReplies` | service-a/main.go:153 | `http.Error` answers with the given status and message, as plain text |
| `Http.EncodeJson` | service-b/main.go:167-168 | setting the JSON content type and encoding a document, with no WriteHeader, answers 200 with that document |
| `ServiceB.LocationUrl` | service-b/main.go:197 | the ViaCEP URL is the fixed prefix, the code, then `/json/`, and the code can be read back from it |
| `ServiceB.GetLocation` | service-b/main.go:188-211 | a transport or decode failure gives `""` with an error; a decoded body gives its `localidade`, possibly empty, with no error; one request, inside a span that is always ended |
| `ServiceB.GetWeather` | service-b/main.go:213-237 | a failure gives the zero reading with an error; a decoded body gives its `temp_c`; one request for the given locality, inside a span that is always ended |
| `ServiceB.Scales` | service-b/main.go:156-165 | the reading keeps the city and Celsius value, and Fahrenheit and Kelvin convert back to it by the linear formulas with offset 273 |
| `ServiceB.TemperatureHandler` | service-b/main.go:127-169 | on every path the spans are well nested and all in the handler's trace, at most two provider requests are made, and none carries a traceparent |
| `ServiceB.EverySpanEndedOnce` | service-b/main.go:190-191 | on every path of the handler, each span started (initial, getLocation, getWeather) is ended exactly once |
| `ServiceB.WrongLengthRejected` | service-b/main.go:139-142 | a code whose length is not 8 gets 412 "invalid zipcode" and no provider is called |
| `ServiceB.EightBytesReachLocationProvider` | service-b/main.go:139-144 | any 8-byte code, digits or not, is looked up at the postal-code provider first, with that code |
| `ServiceB.UnknownLocalityNotFound` | service-b/main.go:144-148 | a failed lookup or an empty locality gets 404 "can not find zipcode", and the weather provider is never called |
| `ServiceB.WeatherAskedForResolvedLocality` | service-b/main.go:144-150 | the weather provider is called once, after the postal-code provider, with exactly the resolved locality |
| `ServiceB.WeatherFailureIsInternalError` | service-b/main.go:150-154 | a failed weather lookup gets 500 "failed to get weather info" |
| `ServiceB.ResolvedReading` | service-b/main.go:156-168 | on success the answer is 200 JSON whose city is the resolved locality and whose temperatures come from the provider's reading |
| `ServiceA.DownstreamUrl` | service-a/main.go:162 | the downstream URL is `http://service-b:8081/zipcode?zipcode=` followed by the code, and the code can be read back from it |
| `ServiceA.ZipCodeHandler` | service-a/main.go:130-186 | spans well nested and in the handler's trace; exactly one downstream request, to the code's URL, when the request is a POST with a decodable body and a valid code, and none otherwise; as written that request carries the transport's new root trace, with the corrections the handler's trace; the external-call span is opened only then |
| `ServiceA.EverySpanEndedOnce` | service-a/main.go:157-158 | on every path of the handler, each span started (initial, external call) is ended exactly once |
| `ServiceA.NonPostRejected` | service-a/main.go:141-144 | a non-POST request gets 405 "Only POST method is allowed", makes no call, opens no external-call span, and its answer does not depend on the body |
| `ServiceA.UndecodableBodyRejected` | service-a/main.go:146-150 | a POST whose body does not decode gets 400 with the decoder's message and makes no call |
| `ServiceA.InvalidZipCodeRejected` | service-a/main.go:152-155 | a decoded code failing the validator gets 412 "invalid zipcode", opens no external-call span and makes no call |
| `ServiceA.NoCallIgnoresDownstream` | service-a/main.go:141-155 | when no call is made the answer does not depend on what the resolution service would have said |
| `ServiceA.UnreachableIsInternalError` | service-a/main.go:164-169 | a transport failure on the downstream call gets 500 with the transport's message |
| `ServiceA.DownstreamNotFound` | service-a/main.go:172-175 | a downstream 404 gets 404 "can not find zipcode" whatever the downstream body |
| `ServiceA.UndecodableReplyIsInternalError` | service-a/main.go:177-181 | any other downstream status with a body that does not decode gets 500 with the decoder's message |
| `ServiceA.ReplyRelayed` | service-a/main.go:183-185 | as written, any other downstream status with a decoded body is relayed with the same status, city and temperatures, under the sniffed plain-text Content-Type |
| `ServiceA.CorrectedReplyIsJson` | service-a/main.go:183-185 | with the corrections, the relayed document carries the downstream status and the JSON Content-Type |
| `ServiceA.ForwardAsWritten` | service-a/main.go:157-164 | as written, the outbound traceparent is the transport's new root trace, whatever the handler's span context |
| `ServiceA.AsWrittenForwardLosesTrace` | service-a/main.go:157-164 | with handler trace 1 and transport root 2, the resolution service continues trace 2, not 1 |
| `ServiceA.ForwardedTrace` | service-a/main.go:157-164 | corrected: the outbound traceparent is the external-call span's context, and the receiver extracts exactly that |
| `ServiceA.RelayAsWrittenIsNotJson` | service-a/main.go:183-185 | as written, the relayed document goes out with a sniffed plain-text Content-Type, not JSON |
| `ServiceA.Relay` | service-a/main.go:183-185 | corrected: the relayed document goes out with the downstream status and the JSON Content-Type |
| `Pipeline.ZipCodeParamReadsDownstreamUrl` | service-b/main.go:138 | for a code of ASCII digits, the resolution service reads back from the query exactly the code the entry service put in the URL |
| `Pipeline.OneTrace` | service-a/main.go:132-139 | with the correction, every span in both services belongs to one trace, the caller's when it sent a traceparent |
| `Pipeline.AsWrittenResolutionTrace` | service-b/main.go:129-136 | as written, the entry spans are in the entry handler's trace but every resolution span is in the entry transport's root trace |
| `Pipeline.ValidatedCodeReachesLocationProvider` | service-b/main.go:139-144 | a code the entry service validated always passes the resolution service's length check and is looked up as sent |
| `Pipeline.EndToEndReading` | service-b/main.go:156-168 | as written, when both providers answer, the client gets 200 with the locality and the reading in three scales, labelled plain text |
| `Pipeline.CorrectedEndToEndReading` | service-b/main.go:156-168 | with the corrections, the same document reaches the client as JSON |
| `Pipeline.EndToEndNotFound` | service-a/main.go:172-175 | an unknown code gets 404 at the client, and the weather provider is never called |
| `Pipeline.EndToEndWeatherFailure` | service-a/main.go:177-181 | a weather outage's plain-text 500 does not decode, so the client gets 500 with the decoder's message |
| `Pipeline.EndToEndUnreachable` | service-a/main.go:164-169 | an unreachable resolution service gets 500 at the client and no resolution exchange happens |
| `Pipeline.RefusedCodeGoesNowhere` | service-a/main.go:152-155 | a refused code gets 412 and nothing reaches the resolution service |
| `Pipeline.SaoPauloExample` | service-b/main.go:156-158 | code 01310900, locality "Sao Paulo", 25 degrees: 200 with 25, 77 and 298, as plain text as written and as JSON with the corrections |

## Findings

| source | as written | input that shows it | evidently intended | confidence | as-written member | corrected member |
|---|---|---|---|---|---|---|
| service-a/main.go:157-164 | the context returned with the external-call span is discarded, and `client.Get` builds the request with a background context; the instrumented transport therefore starts a client span with no parent, in a new trace, and injects that | any valid POST: handler trace 1, transport root 2, and the resolution service continues trace 2 | the resolution service continues the entry handler's trace (the handler already extracts and injects for that purpose) | high, not executed | `ServiceA.AsWrittenForwardLosesTrace` | `ServiceA.ForwardedTrace` |
| service-a/main.go:183-184 | `WriteHeader` is called before `Header().Set("Content-Type", ...)`, so the header change is ignored and net/http sniffs `text/plain; charset=utf-8` for the JSON body | any relayed downstream answer, e.g. status 200 with a decoded document | the relayed JSON carries `Content-Type: application/json` | high, not executed | `ServiceA.RelayAsWrittenIsNotJson` | `ServiceA.Relay` |

`ServiceA.ZipCodeHandler` and `Pipeline.Run` take a `Revision`. `AsWritten` uses
`ServiceA.ForwardAsWritten` and `ServiceA.RelayAsWritten`, the code as it stands;
`Corrected` uses `ServiceA.ForwardedTrace` and `ServiceA.Relay`. Every lemma about a
path the findings do not touch holds for both.

## Left out

- Process wiring: `initProvider`, `main` and `init`. This covers tracer and exporter
  setup, environment configuration, metrics and signal handling. `REQUEST_NAME_OTEL`
  is a parameter.
- The OpenTelemetry library's internals. The W3C header encoding, span ids, flags and
  timestamps are abstracted to trace ids. The spans opened by the otelhttp server
  handler and transport are not recorded.
- The traceparent each handler injects into its own inbound request's headers. It is
  never read again, so it has no observable effect.
- JSON encoding and decoding are oracles. The decoder's error wording is an input.
- `url.QueryEscape` and the weather URL, with its embedded API key. A weather call is
  recorded by the locality it asks about.
- General query-string parsing. `Pipeline.ZipCodeParam` handles only the URLs the
  entry service builds from validated digit codes.
- Closing of response bodies (`defer resp.Body.Close()`), TLS settings and client
  timeouts.
- `ServiceB.Scales`: float64 arithmetic is modelled over the reals, so rounding is
  not modelled. So is the encoder's failure on an infinite temperature, where the
  resolution service would send an empty 200.
- `ServiceA.ReplyRelayed`: a relayed status is assumed to be a final status with a
  body. net/http panics on `WriteHeader` with a code outside 100-999 and treats 1xx
  specially. Neither is modelled.
- Concurrency between requests. Each handler invocation is modelled on its own.
