/** The part of Go's net/http response writing the handlers rely on, and the JSON
    document both services exchange.

    A handler writes through a sequence of actions; `Respond` gives the response the
    client receives. The status line and the headers are fixed ("committed") by the
    first WriteHeader or Write; header changes after that have no effect. */
module Http {
  import opened Tracing

  /** ZipCodeResponse / LocationInfoAndCity: the locality and its temperature in three
      scales. Temperatures are reals; float64 rounding is not modelled. */
  datatype Reading = Reading(city: string, tempC: real, tempF: real, tempK: real)

  /** A body write: an error message, or a JSON-encoded Reading. */
  datatype Body = Text(text: string) | Json(doc: Reading)

  datatype Action =
    | SetHeader(key: string, value: string)   // w.Header().Set
    | WriteHeader(code: int)                  // w.WriteHeader
    | Write(body: Body)                       // w.Write, through fmt or json.Encoder

  datatype Writer =
    | Pending(header: map<string, string>)
    | Committed(status: int, header: map<string, string>, body: seq<Body>)

  /** What the client receives. */
  datatype Response = Response(status: int, header: map<string, string>, body: seq<Body>)

  /** One handler invocation: what it wrote, and what it traced. */
  datatype Exchange = Exchange(actions: seq<Action>, events: seq<Event>)

  const ContentType := "Content-Type"
  const PlainText := "text/plain; charset=utf-8"
  const JsonMedia := "application/json"
  const NoSniff := "X-Content-Type-Options"

  /** Statuses whose responses may not carry a body (net/http's bodyAllowedForStatus). */
  predicate BodyAllowed(status: int)
  {
    !(100 <= status <= 199 || status == 204 || status == 304)
  }

  /** One action against the writer. The first Write commits status 200 if WriteHeader
      was not called; when no Content-Type is set by then, net/http sniffs one from the
      first bytes, and neither a JSON document nor a message matches a binary
      signature, so it sniffs plain text. */
  function Step(w: Writer, a: Action): Writer
  {
    match a
    case SetHeader(k, v) =>
      if w.Pending? then Pending(w.header[k := v]) else w
    case WriteHeader(code) =>
      if w.Pending? then Committed(code, w.header, []) else w
    case Write(b) =>
      var c := if w.Pending? then Committed(200, w.header, []) else w;
      if !BodyAllowed(c.status) then c
      else if c.body == [] && ContentType !in c.header then
        Committed(c.status, c.header[ContentType := PlainText], [b])
      else Committed(c.status, c.header, c.body + [b])
  }

  function Apply(w: Writer, actions: seq<Action>): Writer
    decreases |actions|
  {
    if actions == [] then w else Apply(Step(w, actions[0]), actions[1..])
  }

  /** The response a handler that performed `actions` sends; a handler that wrote
      nothing sends an empty 200. */
  function Respond(actions: seq<Action>): Response
  {
    match Apply(Pending(map[]), actions)
    case Pending(h) => Response(200, h, [])
    case Committed(s, h, b) => Response(s, h, b)
  }

  /** http.Error: plain-text headers, then the status, then the message and a newline. */
  function HttpError(code: int, message: string): seq<Action>
  {
    [SetHeader(ContentType, PlainText), SetHeader(NoSniff, "nosniff"), WriteHeader(code), Write(Text(message + "\n"))]
  }

  /** A plain-text error response carrying `message`. */
  predicate IsError(r: Response, code: int, message: string)
  {
    && r.status == code
    && ContentType in r.header && r.header[ContentType] == PlainText
    && r.body == [Text(message + "\n")]
  }

  /** A JSON response carrying `doc`. */
  predicate IsJson(r: Response, code: int, doc: Reading)
  {
    && r.status == code
    && ContentType in r.header && r.header[ContentType] == JsonMedia
    && r.body == [Json(doc)]
  }

  /** A JSON document sent without its media type: the sniffed plain-text Content-Type. */
  predicate IsSniffedJson(r: Response, code: int, doc: Reading)
  {
    && r.status == code
    && ContentType in r.header && r.header[ContentType] == PlainText
    && r.body == [Json(doc)]
  }

  /** http.Error produces the status and message it was given, as plain text. */
  lemma HttpErrorReplies(code: int, message: string)
    requires BodyAllowed(code)
    ensures IsError(Respond(HttpError(code, message)), code, message)
  {
    var a := HttpError(code, message);
    var h := map[][ContentType := PlainText][NoSniff := "nosniff"];
    assert a[1..][1..][1..][1..] == [];
    assert Apply(Pending(map[]), a) == Apply(Pending(map[][ContentType := PlainText]), a[1..]);
    assert Apply(Pending(map[][ContentType := PlainText]), a[1..]) == Apply(Pending(h), a[1..][1..]);
    assert Apply(Pending(h), a[1..][1..]) == Apply(Committed(code, h, []), a[1..][1..][1..]);
    assert Apply(Committed(code, h, []), a[1..][1..][1..]) == Committed(code, h, [] + [Text(message + "\n")]);
  }

  /** Setting the JSON content type and encoding a document, as the resolution service
      does on success: status 200, since WriteHeader is never called. */
  function EncodeJson(doc: Reading): (actions: seq<Action>)
    ensures IsJson(Respond(actions), 200, doc)
  {
    var actions := [SetHeader(ContentType, JsonMedia), Write(Json(doc))];
    var h := map[][ContentType := JsonMedia];
    assert actions[1..][1..] == [];
    assert Apply(Pending(map[]), actions) == Apply(Pending(h), actions[1..]);
    assert Apply(Pending(h), actions[1..]) == Committed(200, h, [] + [Json(doc)]);
    actions
  }
}
