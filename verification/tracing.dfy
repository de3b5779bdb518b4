/** Trace-context propagation and span bookkeeping as the two handlers use them.

    A W3C `traceparent` header is abstracted to the trace id it carries, and a Go
    context to the trace id of the span active in it. Span ids, sampling flags and
    the header's textual encoding belong to the OpenTelemetry library and are not
    modelled. */
module Tracing {
  import opened Wrappers

  type TraceId = nat

  /** The trace of the span active in a context.Context, if there is one. */
  type Context = Option<TraceId>

  /** A request's `traceparent` header as the propagator reads it: None when absent or malformed. */
  type Carrier = Option<TraceId>

  /** propagation.TraceContext.Extract: a traceparent in the carrier becomes the
      parent of what starts next; without one the context is kept. */
  function Extract(ctx: Context, carrier: Carrier): Context
  {
    if carrier.Some? then carrier else ctx
  }

  /** propagation.TraceContext.Inject: the active span's context is written into the
      carrier; a context with no span leaves the carrier untouched. */
  function Inject(ctx: Context, carrier: Carrier): Carrier
  {
    if ctx.Some? then ctx else carrier
  }

  /** The trace a span begun by tracer.Start joins: its parent's, or with no parent
      a new one whose id the SDK's random generator picks (`newTrace`). */
  function StartSpan(parent: Context, newTrace: TraceId): TraceId
  {
    if parent.Some? then parent.value else newTrace
  }

  /** Whatever a receiver's context held, extracting an injected context yields it back. */
  lemma InjectThenExtract(ctx: Context, carrier: Carrier, receiver: Context)
    requires ctx.Some?
    ensures Extract(receiver, Inject(ctx, carrier)) == ctx
  {
  }

  /** The trace of a handler's `SPAN_INICIAL`, and so of every span the handler
      starts after it: the inbound traceparent overrides the request context, and
      only when both are empty does a new trace begin. */
  function HandlerTrace(requestCtx: Context, inbound: Carrier, newTrace: TraceId): (t: TraceId)
    ensures inbound.Some? ==> t == inbound.value
    ensures inbound.None? && requestCtx.Some? ==> t == requestCtx.value
    ensures inbound.None? && requestCtx.None? ==> t == newTrace
  {
    StartSpan(Extract(requestCtx, inbound), newTrace)
  }

  /** The outbound HTTP requests the core issues. */
  datatype Call =
    | Downstream(url: string)       // entry service to resolution service
    | LocationLookup(url: string)   // resolution service to the postal-code provider
    | WeatherLookup(city: string)   // resolution service to the weather provider, keyed by locality

  /** What a handler does, in order, as far as tracing can see it. */
  datatype Event =
    | SpanStarted(name: string, traceId: TraceId)
    | SpanEnded(name: string)
    | Requested(call: Call, traceparent: Carrier)

  /** Replays events against the stack of open span names. None when a span end
      does not close the innermost open span, or a request is sent outside every span. */
  function Replay(events: seq<Event>, open: seq<string>): Option<seq<string>>
    decreases |events|
  {
    if events == [] then Some(open)
    else match events[0]
      case SpanStarted(name, _) => Replay(events[1..], open + [name])
      case SpanEnded(name) =>
        if |open| > 0 && open[|open| - 1] == name then Replay(events[1..], open[..|open| - 1])
        else None
      case Requested(_, _) =>
        if |open| > 0 then Replay(events[1..], open) else None
  }

  /** Spans are closed in reverse order of opening, all of them are closed, and every
      request is sent while a span is open. */
  predicate WellNested(events: seq<Event>)
  {
    Replay(events, []) == Some([])
  }

  /** Every span started belongs to trace t. */
  predicate SpansIn(events: seq<Event>, t: TraceId)
  {
    forall i | 0 <= i < |events| :: events[i].SpanStarted? ==> events[i].traceId == t
  }

  /** The requests among the events, in order. */
  function Requests(events: seq<Event>): (r: seq<Event>)
    ensures |r| <= |events|
    ensures forall i | 0 <= i < |r| :: r[i].Requested?
    ensures (forall i | 0 <= i < |events| :: !events[i].Requested?) ==> r == []
    decreases |events|
  {
    if events == [] then []
    else (if events[0].Requested? then [events[0]] else []) + Requests(events[1..])
  }

  function Starts(events: seq<Event>, name: string): nat
    decreases |events|
  {
    if events == [] then 0
    else (if events[0].SpanStarted? && events[0].name == name then 1 else 0) + Starts(events[1..], name)
  }

  function Ends(events: seq<Event>, name: string): nat
    decreases |events|
  {
    if events == [] then 0
    else (if events[0] == SpanEnded(name) then 1 else 0) + Ends(events[1..], name)
  }

  function Occurrences(open: seq<string>, name: string): nat
    decreases |open|
  {
    if open == [] then 0
    else Occurrences(open[..|open| - 1], name) + (if open[|open| - 1] == name then 1 else 0)
  }

  lemma {:induction false} ReplayCounts(events: seq<Event>, open: seq<string>, closed: seq<string>, name: string)
    requires Replay(events, open) == Some(closed)
    ensures Occurrences(open, name) + Starts(events, name) == Occurrences(closed, name) + Ends(events, name)
    decreases |events|
  {
    if events != [] {
      match events[0]
      case SpanStarted(m, _) =>
        assert (open + [m])[..|open|] == open;
        ReplayCounts(events[1..], open + [m], closed, name);
      case SpanEnded(m) =>
        ReplayCounts(events[1..], open[..|open| - 1], closed, name);
      case Requested(_, _) =>
        ReplayCounts(events[1..], open, closed, name);
    }
  }

  /** In a well-nested trace every span that is started is ended exactly once. */
  lemma WellNestedEndsEverySpanOnce(events: seq<Event>, name: string)
    requires WellNested(events)
    ensures Starts(events, name) == Ends(events, name)
  {
    ReplayCounts(events, [], [], name);
  }

  lemma {:induction false} ReplayAppend(first: seq<Event>, next: seq<Event>, open: seq<string>)
    ensures Replay(first + next, open) ==
      (match Replay(first, open) case None => None case Some(mid) => Replay(next, mid))
    decreases |first|
  {
    if first != [] {
      assert (first + next)[0] == first[0];
      assert (first + next)[1..] == first[1..] + next;
      match first[0]
      case SpanStarted(m, _) => ReplayAppend(first[1..], next, open + [m]);
      case SpanEnded(m) =>
        if |open| > 0 && open[|open| - 1] == m {
          ReplayAppend(first[1..], next, open[..|open| - 1]);
        }
      case Requested(_, _) =>
        if |open| > 0 {
          ReplayAppend(first[1..], next, open);
        }
    } else {
      assert first + next == next;
    }
  }

  lemma {:induction false} RequestsAppend(first: seq<Event>, next: seq<Event>)
    ensures Requests(first + next) == Requests(first) + Requests(next)
    decreases |first|
  {
    if first == [] {
      assert first + next == next;
    } else {
      assert (first + next)[0] == first[0];
      assert (first + next)[1..] == first[1..] + next;
      RequestsAppend(first[1..], next);
    }
  }

  lemma {:induction false} StartsAppend(first: seq<Event>, next: seq<Event>, name: string)
    ensures Starts(first + next, name) == Starts(first, name) + Starts(next, name)
    decreases |first|
  {
    if first == [] {
      assert first + next == next;
    } else {
      assert (first + next)[0] == first[0];
      assert (first + next)[1..] == first[1..] + next;
      StartsAppend(first[1..], next, name);
    }
  }

  /** Running one well-nested piece of work after another. */
  function Then(first: seq<Event>, next: seq<Event>): (r: seq<Event>)
    ensures WellNested(first) && WellNested(next) ==> WellNested(r)
    ensures forall t :: SpansIn(first, t) && SpansIn(next, t) ==> SpansIn(r, t)
    ensures Requests(r) == Requests(first) + Requests(next)
    ensures forall name :: Starts(r, name) == Starts(first, name) + Starts(next, name)
  {
    ReplayAppend(first, next, []);
    RequestsAppend(first, next);
    StartsFacts(first, next);
    first + next
  }

  lemma StartsFacts(first: seq<Event>, next: seq<Event>)
    ensures forall name :: Starts(first + next, name) == Starts(first, name) + Starts(next, name)
  {
    forall name
      ensures Starts(first + next, name) == Starts(first, name) + Starts(next, name)
    {
      StartsAppend(first, next, name);
    }
  }

  /** What a single event does to each of the measures above. */
  lemma OneEvent(e: Event, open: seq<string>)
    ensures e.SpanStarted? ==> Replay([e], open) == Some(open + [e.name])
    ensures e.SpanEnded? && |open| > 0 && open[|open| - 1] == e.name ==> Replay([e], open) == Some(open[..|open| - 1])
    ensures e.Requested? && |open| > 0 ==> Replay([e], open) == Some(open)
    ensures forall n :: Starts([e], n) == if e.SpanStarted? && e.name == n then 1 else 0
    ensures Requests([e]) == if e.Requested? then [e] else []
  {
    assert [e][1..] == [];
  }

  /** A span opened and closed at once, recording only a point in time. */
  function Marker(name: string, t: TraceId): (r: seq<Event>)
    ensures WellNested(r) && SpansIn(r, t) && Requests(r) == []
    ensures Starts(r, name) == 1
    ensures forall other :: other != name ==> Starts(r, other) == 0
  {
    var start, end := [SpanStarted(name, t)], [SpanEnded(name)];
    OneEvent(start[0], []);
    OneEvent(end[0], [name]);
    assert [] + [name] == [name] && [name][..0] == [];
    ReplayAppend(start, end, []);
    RequestsAppend(start, end);
    StartsFacts(start, end);
    start + end
  }

  /** One outbound request inside its own span, ended on the way out whatever the
      request produced (Go's `defer span.End()`). */
  function Wrapped(name: string, t: TraceId, call: Call, traceparent: Carrier): (r: seq<Event>)
    ensures WellNested(r) && SpansIn(r, t)
    ensures Requests(r) == [Requested(call, traceparent)]
    ensures Starts(r, name) == 1
    ensures forall other :: other != name ==> Starts(r, other) == 0
  {
    var start, request, end := [SpanStarted(name, t)], [Requested(call, traceparent)], [SpanEnded(name)];
    OneEvent(start[0], []);
    OneEvent(request[0], [name]);
    OneEvent(end[0], [name]);
    assert [] + [name] == [name] && [name][..0] == [];
    ReplayAppend(start, request, []);
    ReplayAppend(start + request, end, []);
    RequestsAppend(start, request);
    RequestsAppend(start + request, end);
    StartsFacts(start, request);
    StartsFacts(start + request, end);
    start + request + end
  }
}
