/** The CloudEvents `tracestate` extension as a carrier of the span context
    (cloudevents_carrier.go): the tracer's Binary encoding, base64-encoded
    without padding, stored as a string extension of the event. */
module TraceCarrier {
  import opened Wrappers
  import opened Errors
  import opened Bytes
  import Base64
  import opened Contexts

  /** `extensions.TraceStateExtension` */
  const TraceStateExtension: string := "tracestate"

  /** An extension value: a Go string, or a value of another dynamic type. */
  datatype ExtensionValue = StringValue(s: string) | NonString(typeName: string)

  /** A `cloudevents.Event`; only its extensions are read or written here. */
  class Event {
    var extensions: map<string, ExtensionValue>

    constructor (extensions: map<string, ExtensionValue>)
      ensures this.extensions == extensions
    {
      this.extensions := extensions;
    }
  }

  /** `InjectDistributedTracingExtension`: with a span in the context whose Binary
      injection succeeds, the extension is set (replacing any earlier value) to
      the unpadded base64 of the injected bytes; otherwise the event is untouched.
      The warnings logged on the other paths are not modelled. */
  method InjectDistributedTracingExtension(ctx: Context, event: Event)
    modifies event
    ensures ctx.span.None? ==> event.extensions == old(event.extensions)
    ensures ctx.span.Some? && ctx.tracer.binaryInject(ctx.span.value).Failure? ==>
      event.extensions == old(event.extensions)
    ensures ctx.span.Some? && ctx.tracer.binaryInject(ctx.span.value).Success? ==>
      event.extensions == old(event.extensions)[TraceStateExtension :=
        StringValue(Base64.Encode(ctx.tracer.binaryInject(ctx.span.value).value))]
  {
    if ctx.span.None? {
      return;
    }
    var buf := ctx.tracer.binaryInject(ctx.span.value);
    if buf.Failure? {
      return;
    }
    var data := Base64.Encode(buf.value);
    event.extensions := event.extensions[TraceStateExtension := StringValue(data)];
  }

  /** `ExtractDistributedTracingExtension`: the span context carried by the event,
      or the first of: the extension is missing, it is not a string, it is not
      valid unpadded base64 (with the offending offset), the tracer rejects the
      bytes. */
  function ExtractDistributedTracingExtension(extensions: map<string, ExtensionValue>, tracer: Tracer)
    : (r: Result<SpanContext, Error>)
    ensures r.Success? <==>
      && TraceStateExtension in extensions
      && extensions[TraceStateExtension].StringValue?
      && Base64.Decode(extensions[TraceStateExtension].s).Success?
      && tracer.binaryExtract(Base64.Decode(extensions[TraceStateExtension].s).value).Success?
    ensures r.Success? ==>
      r.value == tracer.binaryExtract(Base64.Decode(extensions[TraceStateExtension].s).value).value
    ensures r == Failure(TraceStateMissing) <==> TraceStateExtension !in extensions
    ensures (r.Failure? && r.error.CarrierWrongType?) <==>
      TraceStateExtension in extensions && extensions[TraceStateExtension].NonString?
    ensures TraceStateExtension in extensions && extensions[TraceStateExtension].NonString? ==>
      r == Failure(CarrierWrongType(extensions[TraceStateExtension].typeName))
    ensures r.Failure? && r.error.Base64Failed? ==>
      && TraceStateExtension in extensions && extensions[TraceStateExtension].StringValue?
      && r.error.cause.CorruptInput? && r.error.cause.offset < |extensions[TraceStateExtension].s|
    ensures (&& TraceStateExtension in extensions && extensions[TraceStateExtension].StringValue?
             && Base64.Decode(extensions[TraceStateExtension].s).Failure?) ==>
      r == Failure(Base64Failed(CorruptInput(Base64.Decode(extensions[TraceStateExtension].s).error)))
    ensures (&& TraceStateExtension in extensions && extensions[TraceStateExtension].StringValue?
             && Base64.Decode(extensions[TraceStateExtension].s).Success?
             && tracer.binaryExtract(Base64.Decode(extensions[TraceStateExtension].s).value).Failure?) ==>
      r == Failure(ExtractFailed(tracer.binaryExtract(Base64.Decode(extensions[TraceStateExtension].s).value).error))
  {
    if TraceStateExtension !in extensions then Failure(TraceStateMissing)
    else match extensions[TraceStateExtension]
      case NonString(typeName) => Failure(CarrierWrongType(typeName))
      case StringValue(v) =>
        match Base64.Decode(v)
        case Failure(offset) => Failure(Base64Failed(CorruptInput(offset)))
        case Success(data) =>
          match tracer.binaryExtract(data)
          case Failure(e) => Failure(ExtractFailed(e))
          case Success(span) => Success(span)
  }

  /** Extracting from an extension that injection wrote never fails at the base64
      step: the result is exactly what the tracer makes of the injected bytes. */
  lemma ExtractInjected(extensions: map<string, ExtensionValue>, data: seq<byte>, tracer: Tracer)
    ensures ExtractDistributedTracingExtension(extensions[TraceStateExtension := StringValue(Base64.Encode(data))], tracer)
      == match tracer.binaryExtract(data)
         case Success(span) => Success(span)
         case Failure(e) => Failure(ExtractFailed(e))
  {
    Base64.DecodeEncode(data);
  }

  /** Round trip through an event: when the tracer's Binary format reads back
      what it writes, the receiver extracts the sender's span context. */
  method InjectThenExtract(ctx: Context, event: Event) returns (r: Result<SpanContext, Error>)
    requires ctx.span.Some? && ctx.tracer.binaryInject(ctx.span.value).Success?
    requires ctx.tracer.binaryExtract(ctx.tracer.binaryInject(ctx.span.value).value) == Success(ctx.span.value)
    modifies event
    ensures r == Success(ctx.span.value)
  {
    InjectDistributedTracingExtension(ctx, event);
    ExtractInjected(old(event.extensions), ctx.tracer.binaryInject(ctx.span.value).value, ctx.tracer);
    r := ExtractDistributedTracingExtension(event.extensions, ctx.tracer);
  }
}
