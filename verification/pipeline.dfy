/** The two services composed: the entry service's call to the resolution service is
    answered by the resolution handler itself, run on the request the entry service
    sends. */
module Pipeline {
  import opened Wrappers
  import opened Tracing
  import opened Http
  import ZipCode
  import A = ServiceA
  import B = ServiceB

  /** Each service's REQUEST_NAME_OTEL, the trace ids the SDK would draw, and the text
      of the JSON decoder's error for a body that is not a JSON document (its exact
      wording belongs to encoding/json and is an input here). */
  datatype Setup = Setup(
    entryName: string, resolutionName: string,
    entryIds: A.Ids, resolutionRoot: TraceId,
    decodeError: string)

  /** Both handlers' exchanges; the second is absent when the resolution service was
      not reached. */
  datatype Trip = Trip(entry: Exchange, resolution: Option<Exchange>)

  /** r.URL.Query().Get("zipcode") on the URLs the entry service builds. Only codes of
      ASCII digits are ever forwarded; they need no unescaping and hold no separator,
      so the value is the rest of the URL after the fixed prefix. */
  function ZipCodeParam(url: string): string
  {
    if |url| >= |A.DownstreamPrefix| && url[..|A.DownstreamPrefix|] == A.DownstreamPrefix
    then url[|A.DownstreamPrefix|..]
    else ""
  }

  /** The resolution service reads back exactly the code the entry service sent, for
      the codes of ASCII digits the entry service forwards. */
  lemma ZipCodeParamReadsDownstreamUrl(cep: string)
    requires ZipCode.AllDigits(cep)
    ensures ZipCodeParam(A.DownstreamUrl(cep)) == cep
  {
  }

  /** How the entry service sees the resolution service's response: the status, and
      the body decoded into ZipCodeResponse, which succeeds only for a JSON document. */
  function AsReply(r: Response, decodeError: string): A.Reply
  {
    A.Reply(r.status, if |r.body| == 1 && r.body[0].Json? then Success(r.body[0].doc) else Failure(decodeError))
  }

  /** The request the entry service sends for a code it has validated. The resolution
      service's request context is left empty: the traceparent it carries overrides it. */
  function Forwarded(rev: A.Revision, req: A.Request, s: Setup): B.Request
    requires A.Forwards(req)
  {
    var t := HandlerTrace(req.ctx, req.traceparent, s.entryIds.handlerRoot);
    B.Request(ZipCodeParam(A.DownstreamUrl(req.body.value)), A.Forward(rev, Some(t), s.entryIds.transportRoot), None)
  }

  /** One client request through both services; `link` is the transport error, if any,
      of the call between them. */
  function Run(rev: A.Revision, req: A.Request, s: Setup, link: Option<string>, p: B.Providers): Trip
  {
    if A.Forwards(req) && link.None? then
      var resolution := B.TemperatureHandler(Forwarded(rev, req, s), s.resolutionName, s.resolutionRoot, p);
      Trip(A.ZipCodeHandler(rev, req, s.entryName, s.entryIds, AsReply(Respond(resolution.actions), s.decodeError)),
           Some(resolution))
    else
      Trip(A.ZipCodeHandler(rev, req, s.entryName, s.entryIds, A.Unreachable(if link.Some? then link.value else "")), None)
  }

  /** With the corrections, every span in both services belongs to the one trace the
      entry service started or continued: the caller's trace when it sent a traceparent. */
  lemma OneTrace(req: A.Request, s: Setup, p: B.Providers)
    requires A.Forwards(req)
    ensures var trip := Run(A.Corrected, req, s, None, p);
      var t := HandlerTrace(req.ctx, req.traceparent, s.entryIds.handlerRoot);
      && trip.resolution.Some?
      && SpansIn(trip.entry.events, t)
      && SpansIn(trip.resolution.value.events, t)
      && (req.traceparent.Some? ==> t == req.traceparent.value)
  {
  }

  /** As written, the resolution service's spans all belong to the trace the entry
      service's transport rooted, not to the entry handler's. */
  lemma AsWrittenResolutionTrace(req: A.Request, s: Setup, p: B.Providers)
    requires A.Forwards(req)
    ensures var trip := Run(A.AsWritten, req, s, None, p);
      && trip.resolution.Some?
      && SpansIn(trip.entry.events, HandlerTrace(req.ctx, req.traceparent, s.entryIds.handlerRoot))
      && SpansIn(trip.resolution.value.events, s.entryIds.transportRoot)
  {
  }

  /** A validated code always passes the resolution service's length check: the
      postal-code provider is asked for exactly that code. */
  lemma ValidatedCodeReachesLocationProvider(rev: A.Revision, req: A.Request, s: Setup, p: B.Providers)
    requires A.Forwards(req)
    ensures var trip := Run(rev, req, s, None, p);
      && trip.resolution.Some?
      && |Requests(trip.resolution.value.events)| >= 1
      && Requests(trip.resolution.value.events)[0] ==
           Requested(LocationLookup(B.LocationUrl(req.body.value)), None)
  {
    ZipCode.ValidCodeHasZipCodeLength(req.body.value);
    B.EightBytesReachLocationProvider(Forwarded(rev, req, s), s.resolutionName, s.resolutionRoot, p);
  }

  /** The happy path, as written: the client receives 200 with the resolved locality
      and the reading in three scales, labelled as plain text. */
  lemma EndToEndReading(req: A.Request, s: Setup, p: B.Providers)
    requires A.Forwards(req)
    requires p.location.Decoded? && p.location.value != "" && p.weather.Decoded?
    ensures IsSniffedJson(Respond(Run(A.AsWritten, req, s, None, p).entry.actions), 200,
                          B.Scales(p.location.value, p.weather.value))
  {
    ZipCode.ValidCodeHasZipCodeLength(req.body.value);
    B.ResolvedReading(Forwarded(A.AsWritten, req, s), s.resolutionName, s.resolutionRoot, p);
    A.ReplyRelayed(req, s.entryName, s.entryIds, 200, B.Scales(p.location.value, p.weather.value));
  }

  /** The happy path with the corrections: the same document, as JSON. */
  lemma CorrectedEndToEndReading(req: A.Request, s: Setup, p: B.Providers)
    requires A.Forwards(req)
    requires p.location.Decoded? && p.location.value != "" && p.weather.Decoded?
    ensures IsJson(Respond(Run(A.Corrected, req, s, None, p).entry.actions), 200,
                   B.Scales(p.location.value, p.weather.value))
  {
    ZipCode.ValidCodeHasZipCodeLength(req.body.value);
    B.ResolvedReading(Forwarded(A.Corrected, req, s), s.resolutionName, s.resolutionRoot, p);
    A.CorrectedReplyIsJson(req, s.entryName, s.entryIds, 200, B.Scales(p.location.value, p.weather.value));
  }

  /** An unknown code: the client receives 404, and the weather provider is never asked. */
  lemma EndToEndNotFound(rev: A.Revision, req: A.Request, s: Setup, p: B.Providers)
    requires A.Forwards(req)
    requires !p.location.Decoded? || p.location.value == ""
    ensures var trip := Run(rev, req, s, None, p);
      && IsError(Respond(trip.entry.actions), 404, A.ZipCodeNotFound)
      && trip.resolution.Some?
      && Requests(trip.resolution.value.events) == [Requested(LocationLookup(B.LocationUrl(req.body.value)), None)]
  {
    var fwd := Forwarded(rev, req, s);
    ZipCode.ValidCodeHasZipCodeLength(req.body.value);
    B.UnknownLocalityNotFound(fwd, s.resolutionName, s.resolutionRoot, p);
    var reply := AsReply(Respond(B.TemperatureHandler(fwd, s.resolutionName, s.resolutionRoot, p).actions), s.decodeError);
    A.DownstreamNotFound(rev, req, s.entryName, s.entryIds, reply.body);
  }

  /** A weather outage: the resolution service's plain-text 500 does not decode, so the
      client receives 500 carrying the decoder's message. */
  lemma EndToEndWeatherFailure(rev: A.Revision, req: A.Request, s: Setup, p: B.Providers)
    requires A.Forwards(req)
    requires p.location.Decoded? && p.location.value != "" && !p.weather.Decoded?
    ensures IsError(Respond(Run(rev, req, s, None, p).entry.actions), 500, s.decodeError)
  {
    var fwd := Forwarded(rev, req, s);
    ZipCode.ValidCodeHasZipCodeLength(req.body.value);
    B.WeatherFailureIsInternalError(fwd, s.resolutionName, s.resolutionRoot, p);
    A.UndecodableReplyIsInternalError(rev, req, s.entryName, s.entryIds, 500, s.decodeError);
  }

  /** The resolution service unreachable: the client receives 500 with the transport's message. */
  lemma EndToEndUnreachable(rev: A.Revision, req: A.Request, s: Setup, err: string, p: B.Providers)
    requires A.Forwards(req)
    ensures var trip := Run(rev, req, s, Some(err), p);
      trip.resolution.None? && IsError(Respond(trip.entry.actions), 500, err)
  {
    A.UnreachableIsInternalError(rev, req, s.entryName, s.entryIds, err);
  }

  /** A code the entry service refuses never reaches the resolution service. */
  lemma RefusedCodeGoesNowhere(rev: A.Revision, req: A.Request, s: Setup, link: Option<string>, p: B.Providers)
    requires req.httpMethod == "POST" && req.body.Success? && !ZipCode.IsValidZipCode(req.body.value)
    ensures var trip := Run(rev, req, s, link, p);
      trip.resolution.None? && IsError(Respond(trip.entry.actions), 412, A.InvalidZipCode)
      && Requests(trip.entry.events) == []
  {
    A.InvalidZipCodeRejected(rev, req, s.entryName, s.entryIds, A.Unreachable(if link.Some? then link.value else ""));
  }

  /** The worked example: code 01310900, locality "Sao Paulo", 25 degrees Celsius. As
      written the document arrives as plain text; with the corrections, as JSON. */
  lemma SaoPauloExample(s: Setup)
    ensures var req := A.Request("POST", Success("01310900"), None, None);
      var p := B.Providers(B.Decoded("Sao Paulo"), B.Decoded(25.0));
      && IsSniffedJson(Respond(Run(A.AsWritten, req, s, None, p).entry.actions), 200, Reading("Sao Paulo", 25.0, 77.0, 298.0))
      && IsJson(Respond(Run(A.Corrected, req, s, None, p).entry.actions), 200, Reading("Sao Paulo", 25.0, 77.0, 298.0))
  {
    var req := A.Request("POST", Success("01310900"), None, None);
    var p := B.Providers(B.Decoded("Sao Paulo"), B.Decoded(25.0));
    ZipCode.IsValidZipCodeExactly("01310900");
    EndToEndReading(req, s, p);
    CorrectedEndToEndReading(req, s, p);
  }
}
