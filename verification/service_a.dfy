/** The entry service (service-a/main.go): zipCodeHandler and isValidZipCode. The call
    to the resolution service is an oracle: the handler is given what the HTTP call
    and the decoding of its body produced. */
module ServiceA {
  import opened Wrappers
  import opened Tracing
  import opened Http
  import ZipCode

  /** The inbound request: its HTTP method, the JSON decoding of its body into
      ZipCodeRequest (the `cep` field, "" when the field is missing, or the decoder's
      error text), its traceparent header and the trace of its request context. */
  datatype Request = Request(httpMethod: string, body: Result<string, string>, traceparent: Carrier, ctx: Context)

  /** What the call to the resolution service produced: client.Get failed, or a
      status with the decoding of the body into ZipCodeResponse. */
  datatype Reply = Unreachable(err: string) | Reply(status: int, body: Result<Reading, string>)

  /** The ids the tracing SDK would draw: for a handler trace started with no parent,
      and for the client span the instrumented transport starts with no parent. */
  datatype Ids = Ids(handlerRoot: TraceId, transportRoot: TraceId)

  const InitialSpanPrefix := "SPAN_INICIAL "
  const ExternalSpan := "Chamada externa: getTemperatureByZipCode"
  const DownstreamPrefix := "http://service-b:8081/zipcode?zipcode="

  const MethodNotAllowed := "Only POST method is allowed"
  const InvalidZipCode := "invalid zipcode"
  const ZipCodeNotFound := "can not find zipcode"

  /** The resolution service's URL; the code is everything after the fixed prefix. */
  function DownstreamUrl(cep: string): (url: string)
    ensures |url| == |DownstreamPrefix| + |cep|
    ensures url[..|DownstreamPrefix|] == DownstreamPrefix
    ensures url[|DownstreamPrefix|..] == cep
  {
    DownstreamPrefix + cep
  }

  /** The request passes the method check, decodes, and carries a valid code. */
  predicate Forwards(req: Request)
  {
    req.httpMethod == "POST" && req.body.Success? && ZipCode.IsValidZipCode(req.body.value)
  }

  /** The traceparent otelhttp's transport writes on an outbound request: it starts a
      client span from the request's own context and injects it. */
  function TransportTrace(requestCtx: Context, transportRoot: TraceId): Carrier
  {
    Inject(Some(StartSpan(requestCtx, transportRoot)), None)
  }

  /** As written, client.Get builds the request with context.Background(), and the
      context returned with the external-call span is discarded, so the transport
      roots a new trace whatever the handler's trace is. */
  function ForwardAsWritten(spanCtx: Context, transportRoot: TraceId): (c: Carrier)
    ensures c == Some(transportRoot)
  {
    TransportTrace(None, transportRoot)
  }

  /** Corrected: the request is built with the external-call span's context, so the
      resolution service receives the handler's own trace. */
  function ForwardedTrace(spanCtx: Context, transportRoot: TraceId): (c: Carrier)
    ensures spanCtx.Some? ==> c == spanCtx
    ensures forall receiver :: spanCtx.Some? ==> Extract(receiver, c) == spanCtx
  {
    TransportTrace(spanCtx, transportRoot)
  }

  /** As written, the relayed trace id is the transport's, not the handler's: with a
      handler trace 1 and a transport root 2, the resolution service continues trace 2. */
  lemma AsWrittenForwardLosesTrace()
    ensures HandlerTrace(None, ForwardAsWritten(Some(1), 2), 3) != 1
  {
  }

  /** As written: the status is committed before Content-Type is set, so the header
      change is lost and the JSON body goes out as sniffed plain text. */
  function RelayAsWritten(status: int, doc: Reading): seq<Action>
  {
    [WriteHeader(status), SetHeader(ContentType, JsonMedia), Write(Json(doc))]
  }

  lemma RelayAsWrittenIsNotJson(status: int, doc: Reading)
    requires BodyAllowed(status)
    ensures IsSniffedJson(Respond(RelayAsWritten(status, doc)), status, doc)
    ensures !IsJson(Respond(RelayAsWritten(status, doc)), status, doc)
  {
    var a := RelayAsWritten(status, doc);
    assert a[1..][1..][1..] == [];
    assert Apply(Pending(map[]), a) == Apply(Committed(status, map[], []), a[1..]);
    assert Apply(Committed(status, map[], []), a[1..]) == Apply(Committed(status, map[], []), a[1..][1..]);
    assert Apply(Committed(status, map[], []), a[1..][1..])
        == Committed(status, map[][ContentType := PlainText], [Json(doc)]);
  }

  /** Corrected: Content-Type first, then the relayed status, then the document. */
  function Relay(status: int, doc: Reading): (actions: seq<Action>)
    ensures BodyAllowed(status) ==> IsJson(Respond(actions), status, doc)
  {
    var actions := [SetHeader(ContentType, JsonMedia), WriteHeader(status), Write(Json(doc))];
    var h := map[][ContentType := JsonMedia];
    assert actions[1..][1..][1..] == [];
    assert Apply(Pending(map[]), actions) == Apply(Pending(h), actions[1..]);
    assert Apply(Pending(h), actions[1..]) == Apply(Committed(status, h, []), actions[1..][1..]);
    assert BodyAllowed(status) ==>
      Apply(Committed(status, h, []), actions[1..][1..]) == Committed(status, h, [] + [Json(doc)]);
    actions
  }

  /** The handler as the code is written, or with both corrections (ForwardedTrace and
      Relay). The two differ only in the traceparent of the downstream call and in how
      a decoded answer is relayed. */
  datatype Revision = AsWritten | Corrected

  /** The traceparent the downstream call carries in each revision. */
  function Forward(rev: Revision, spanCtx: Context, transportRoot: TraceId): Carrier
  {
    if rev.AsWritten? then ForwardAsWritten(spanCtx, transportRoot) else ForwardedTrace(spanCtx, transportRoot)
  }

  /** The relay of a decoded answer in each revision. */
  function RelayIn(rev: Revision, status: int, doc: Reading): seq<Action>
  {
    if rev.AsWritten? then RelayAsWritten(status, doc) else Relay(status, doc)
  }

  /** zipCodeHandler. With `AsWritten` it is the code as written: the downstream call
      carries the transport's new root trace, and a relayed document goes out as
      sniffed plain text. The external-call span is ended when the handler returns, on
      every path. The traceparent injected back into the inbound request's own headers
      is never read again and is not modelled. */
  function ZipCodeHandler(rev: Revision, req: Request, requestName: string, ids: Ids, downstream: Reply): (out: Exchange)
    ensures WellNested(out.events)
    ensures SpansIn(out.events, HandlerTrace(req.ctx, req.traceparent, ids.handlerRoot))
    ensures Requests(out.events) ==
      if Forwards(req) then
        [Requested(Downstream(DownstreamUrl(req.body.value)),
                   Some(if rev.AsWritten? then ids.transportRoot
                        else HandlerTrace(req.ctx, req.traceparent, ids.handlerRoot)))]
      else []
    ensures Starts(out.events, ExternalSpan) == if Forwards(req) then 1 else 0
  {
    var t := HandlerTrace(req.ctx, req.traceparent, ids.handlerRoot);
    var initial := Marker(InitialSpanPrefix + requestName, t);
    assert (InitialSpanPrefix + requestName)[0] != ExternalSpan[0];
    if req.httpMethod != "POST" then
      Exchange(HttpError(405, MethodNotAllowed), initial)
    else if req.body.Failure? then
      Exchange(HttpError(400, req.body.error), initial)
    else if !ZipCode.IsValidZipCode(req.body.value) then
      Exchange(HttpError(412, InvalidZipCode), initial)
    else
      var call := Wrapped(ExternalSpan, t, Downstream(DownstreamUrl(req.body.value)),
                          Forward(rev, Some(t), ids.transportRoot));
      var events := Then(initial, call);
      match downstream
      case Unreachable(e) => Exchange(HttpError(500, e), events)
      case Reply(status, body) =>
        if status == 404 then Exchange(HttpError(404, ZipCodeNotFound), events)
        else match body
          case Failure(e) => Exchange(HttpError(500, e), events)
          case Success(doc) => Exchange(RelayIn(rev, status, doc), events)
  }

  /** Every span the handler starts is ended exactly once, whichever path it takes. */
  lemma EverySpanEndedOnce(rev: Revision, req: Request, requestName: string, ids: Ids, downstream: Reply, name: string)
    ensures var out := ZipCodeHandler(rev, req, requestName, ids, downstream);
      Starts(out.events, name) == Ends(out.events, name)
  {
    WellNestedEndsEverySpanOnce(ZipCodeHandler(rev, req, requestName, ids, downstream).events, name);
  }

  /** A request that is not a POST gets 405; the body is never decoded (the answer does
      not depend on it) and nothing is called. */
  lemma NonPostRejected(rev: Revision, req: Request, requestName: string, ids: Ids, downstream: Reply, body: Result<string, string>)
    requires req.httpMethod != "POST"
    ensures var out := ZipCodeHandler(rev, req, requestName, ids, downstream);
      && IsError(Respond(out.actions), 405, MethodNotAllowed)
      && Requests(out.events) == [] && Starts(out.events, ExternalSpan) == 0
      && ZipCodeHandler(rev, req.(body := body), requestName, ids, downstream) == out
  {
    HttpErrorReplies(405, MethodNotAllowed);
  }

  /** A POST whose body does not decode gets 400 with the decoder's message, and
      nothing is called. */
  lemma UndecodableBodyRejected(rev: Revision, req: Request, requestName: string, ids: Ids, downstream: Reply)
    requires req.httpMethod == "POST" && req.body.Failure?
    ensures var out := ZipCodeHandler(rev, req, requestName, ids, downstream);
      IsError(Respond(out.actions), 400, req.body.error) && Requests(out.events) == []
  {
    HttpErrorReplies(400, req.body.error);
  }

  /** A decoded code that fails the validator gets 412; the external-call span is
      never started and nothing is called. */
  lemma InvalidZipCodeRejected(rev: Revision, req: Request, requestName: string, ids: Ids, downstream: Reply)
    requires req.httpMethod == "POST" && req.body.Success? && !ZipCode.IsValidZipCode(req.body.value)
    ensures var out := ZipCodeHandler(rev, req, requestName, ids, downstream);
      && IsError(Respond(out.actions), 412, InvalidZipCode)
      && Requests(out.events) == [] && Starts(out.events, ExternalSpan) == 0
  {
    HttpErrorReplies(412, InvalidZipCode);
  }

  /** When nothing is called, the answer does not depend on what the resolution
      service would have said, nor on the revision. */
  lemma NoCallIgnoresDownstream(rev: Revision, req: Request, requestName: string, ids: Ids, one: Reply, other: Reply)
    requires !Forwards(req)
    ensures ZipCodeHandler(rev, req, requestName, ids, one) == ZipCodeHandler(AsWritten, req, requestName, ids, other)
  {
  }

  /** A transport failure reaching the resolution service gets 500 with its message. */
  lemma UnreachableIsInternalError(rev: Revision, req: Request, requestName: string, ids: Ids, err: string)
    requires Forwards(req)
    ensures IsError(Respond(ZipCodeHandler(rev, req, requestName, ids, Unreachable(err)).actions), 500, err)
  {
    HttpErrorReplies(500, err);
  }

  /** A 404 from the resolution service gets 404, whatever its body. */
  lemma DownstreamNotFound(rev: Revision, req: Request, requestName: string, ids: Ids, body: Result<Reading, string>)
    requires Forwards(req)
    ensures IsError(Respond(ZipCodeHandler(rev, req, requestName, ids, Reply(404, body)).actions), 404, ZipCodeNotFound)
  {
    HttpErrorReplies(404, ZipCodeNotFound);
  }

  /** Any other status with a body that does not decode gets 500 with the decoder's message. */
  lemma UndecodableReplyIsInternalError(rev: Revision, req: Request, requestName: string, ids: Ids, status: int, err: string)
    requires Forwards(req) && status != 404
    ensures IsError(Respond(ZipCodeHandler(rev, req, requestName, ids, Reply(status, Failure(err))).actions), 500, err)
  {
    HttpErrorReplies(500, err);
  }

  /** As written, any other status with a decoded body is relayed with the same status,
      city and temperatures, but as sniffed plain text. */
  lemma ReplyRelayed(req: Request, requestName: string, ids: Ids, status: int, doc: Reading)
    requires Forwards(req) && status != 404 && BodyAllowed(status)
    ensures IsSniffedJson(Respond(ZipCodeHandler(AsWritten, req, requestName, ids, Reply(status, Success(doc))).actions), status, doc)
  {
    RelayAsWrittenIsNotJson(status, doc);
  }

  /** With the corrections, the relayed document carries the JSON Content-Type. */
  lemma CorrectedReplyIsJson(req: Request, requestName: string, ids: Ids, status: int, doc: Reading)
    requires Forwards(req) && status != 404 && BodyAllowed(status)
    ensures IsJson(Respond(ZipCodeHandler(Corrected, req, requestName, ids, Reply(status, Success(doc))).actions), status, doc)
  {
  }
}
