/** The CloudEvents observability service (observability.go): reader metrics
    kept per event type, and the spans started around sending and invoking.
    Durations are not modelled. */
module Observability {
  import opened Wrappers
  import opened Errors
  import opened Contexts

  /** The counting metrics the send interceptor touches, by their reader method:
      AddReaderTopicReadEvents, ...DecodeEvents, ...FatalError, ...ProcessError
      and ...ErrorEvents. */
  datatype Counter = ReadEvents | DecodeEvents | FatalErrors | ProcessErrors | ErrorEvents

  /** The fields of an event the interceptors read: `Type()`, `ID()`, `String()`. */
  datatype EventInfo = EventInfo(eventType: string, id: string, info: string)

  /** The value of a counter for an event type; a counter never touched is 0. */
  function Count(counters: map<(Counter, string), nat>, c: Counter, t: string): nat
  {
    if (c, t) in counters then counters[(c, t)] else 0
  }

  /** One increment by 1 of counter c for event type t. */
  function Bump(counters: map<(Counter, string), nat>, c: Counter, t: string): (r: map<(Counter, string), nat>)
    ensures Count(r, c, t) == Count(counters, c, t) + 1
    ensures forall c', t' :: (c', t') != (c, t) ==> Count(r, c', t') == Count(counters, c', t')
  {
    counters[(c, t) := Count(counters, c, t) + 1]
  }

  /** What the send callback does to the counters: a failure counts as a fatal
      error, a process error and an error event; a success as a decoded event. */
  function AfterCallback(counters: map<(Counter, string), nat>, t: string, err: Option<Error>): map<(Counter, string), nat>
  {
    if err.Some? then Bump(Bump(Bump(counters, FatalErrors, t), ProcessErrors, t), ErrorEvents, t)
    else Bump(counters, DecodeEvents, t)
  }

  /** The callback's classification: with nil it bumps only decode-events, with an
      error each of the three error counters and not decode-events; read-events
      and every other event type are untouched. */
  lemma CallbackCounts(counters: map<(Counter, string), nat>, t: string, err: Option<Error>, c: Counter, t': string)
    ensures var after := AfterCallback(counters, t, err);
      && (t' != t || c == ReadEvents ==> Count(after, c, t') == Count(counters, c, t'))
      && (err.None? && c != DecodeEvents ==> Count(after, c, t') == Count(counters, c, t'))
      && (err.None? ==> Count(after, DecodeEvents, t) == Count(counters, DecodeEvents, t) + 1)
      && (err.Some? && c != DecodeEvents && c != ReadEvents ==> Count(after, c, t) == Count(counters, c, t) + 1)
      && (err.Some? ==> Count(after, DecodeEvents, t') == Count(counters, DecodeEvents, t'))
  {
  }

  /** Every completed send is classified exactly once: decode-events and
      error-events together grow by one. */
  lemma ClassifiedOnce(counters: map<(Counter, string), nat>, t: string, err: Option<Error>)
    ensures var after := AfterCallback(counters, t, err);
      Count(after, DecodeEvents, t) + Count(after, ErrorEvents, t)
        == Count(counters, DecodeEvents, t) + Count(counters, ErrorEvents, t) + 1
  {
    CallbackCounts(counters, t, err, DecodeEvents, t);
    CallbackCounts(counters, t, err, ErrorEvents, t);
  }

  /** The metrics reader: one counter table shared by all interceptors. */
  class Metrics {
    var counters: map<(Counter, string), nat>

    constructor ()
      ensures counters == map[]
    {
      counters := map[];
    }

    method Add(c: Counter, t: string)
      modifies this
      ensures counters == Bump(old(counters), c, t)
    {
      counters := Bump(counters, c, t);
    }
  }

  /** A span: its operation name, the fields put on it, and whether it finished. */
  class Span {
    const name: string
    var fields: seq<(string, string)>
    var finished: bool

    constructor (name: string)
      ensures this.name == name && fields == [] && !finished
    {
      this.name := name;
      fields := [];
      finished := false;
    }
  }

  /** The completion callbacks the interceptors return. */
  datatype Callback = SendingCallback(eventType: string, span: Span) | NoopCallback

  /** `RecordSendingEvent`: starts the span "SEND EVENT: <type>" (`started` is its
      context, chosen by the tracer), bumps read-events for the type by one, puts
      the event's type, id and text on the span, and returns the context holding
      the new span together with the callback. */
  method RecordSendingEvent(metrics: Metrics, ctx: Context, e: EventInfo, started: SpanContext)
    returns (out: Context, cb: Callback)
    modifies metrics
    ensures metrics.counters == Bump(old(metrics.counters), ReadEvents, e.eventType)
    ensures out == ctx.(span := Some(started))
    ensures cb.SendingCallback? && cb.eventType == e.eventType && fresh(cb.span)
    ensures cb.span.name == "SEND EVENT: " + e.eventType && !cb.span.finished
    ensures cb.span.fields == [("cloud.event.type", e.eventType), ("key", e.id), ("info", e.info)]
  {
    var span := new Span("SEND EVENT: " + e.eventType);
    cb := SendingCallback(e.eventType, span);
    metrics.Add(ReadEvents, e.eventType);
    span.fields := span.fields + [("cloud.event.type", e.eventType), ("key", e.id), ("info", e.info)];
    out := ctx.(span := Some(started));
  }

  /** Calling a callback with the outcome `err`. The send callback counts the
      outcome, puts a failure on the span, and finishes the span on every path. */
  method Complete(cb: Callback, err: Option<Error>, metrics: Metrics)
    modifies metrics, if cb.SendingCallback? then {cb.span} else {}
    ensures cb.NoopCallback? ==> metrics.counters == old(metrics.counters)
    ensures cb.SendingCallback? ==>
      && metrics.counters == AfterCallback(old(metrics.counters), cb.eventType, err)
      && cb.span.finished
      && cb.span.fields == old(cb.span.fields) + (if err.Some? then [("error", Message(err.value))] else [])
  {
    if cb.NoopCallback? {
      return;
    }
    var t := cb.eventType;
    if err.Some? {
      metrics.Add(FatalErrors, t);
      metrics.Add(ProcessErrors, t);
      metrics.Add(ErrorEvents, t);
      cb.span.fields := cb.span.fields + [("error", Message(err.value))];
    } else {
      metrics.Add(DecodeEvents, t);
    }
    cb.span.finished := true;
  }

  /** The options a span is started with. */
  datatype StartOption = Tags(tags: map<string, string>) | Reference(ref: SpanReference)

  /** The option list `RecordCallingInvoker` assembles: the tags first, then the
      context's span reference when the context holds one. */
  method InvokerOptions(ctx: Context, e: EventInfo) returns (opts: seq<StartOption>)
    ensures 1 <= |opts| <= 2
    ensures opts[0] == Tags(map["cloud.event.type" := e.eventType, "key" := e.id, "event info" := e.info])
    ensures |opts| == 2 <==> ctx.reference.ReferenceValue?
    ensures |opts| == 2 ==> opts[1] == Reference(ctx.reference.ref)
  {
    opts := [];
    opts := opts + [Tags(map["cloud.event.type" := e.eventType, "key" := e.id, "event info" := e.info])];
    if ctx.reference.ReferenceValue? {
      opts := opts + [Reference(ctx.reference.ref)];
    }
  }

  /** `RecordCallingInvoker`: starts "GET EVENT: <type>" with those options and
      returns the telemetry's own context (`base`) holding the new span, with a
      callback that does nothing. */
  method RecordCallingInvoker(base: Context, ctx: Context, e: EventInfo, started: SpanContext)
    returns (out: Context, name: string, opts: seq<StartOption>, cb: Callback)
    ensures name == "GET EVENT: " + e.eventType
    ensures 1 <= |opts| <= 2
    ensures opts[0] == Tags(map["cloud.event.type" := e.eventType, "key" := e.id, "event info" := e.info])
    ensures |opts| == 2 <==> ctx.reference.ReferenceValue?
    ensures |opts| == 2 ==> opts[1] == Reference(ctx.reference.ref)
    ensures out == base.(span := Some(started))
    ensures cb == NoopCallback
  {
    opts := InvokerOptions(ctx, e);
    name := "GET EVENT: " + e.eventType;
    out := base.(span := Some(started));
    cb := NoopCallback;
  }

  /** The invoker's callback changes no counter, whatever the outcome. */
  method CompleteInvoker(base: Context, ctx: Context, e: EventInfo, started: SpanContext, err: Option<Error>, metrics: Metrics)
    modifies metrics
    ensures metrics.counters == old(metrics.counters)
  {
    var out, name, opts, cb := RecordCallingInvoker(base, ctx, e, started);
    Complete(cb, err, metrics);
  }

  /** `RecordRequestEvent`: the context comes back as it was, with a callback
      that does nothing. */
  function RecordRequestEvent(ctx: Context, e: EventInfo): (r: (Context, Callback))
    ensures r.0 == ctx && r.1.NoopCallback?
  {
    (ctx, NoopCallback)
  }

  /** `InboundContextDecorators`: no decorators. */
  function InboundContextDecorators(): (r: seq<Context -> Context>)
    ensures |r| == 0
  {
    []
  }
}
