/** The parts of a Go `context.Context` the binding reads. */
module Contexts {
  import opened Wrappers
  import opened Errors
  import opened Bytes

  /** An opentracing span context; its contents belong to the tracer. */
  datatype SpanContext = SpanContext(id: nat)

  /** `opentracing.SpanReference`: a parent link for a new span. */
  datatype SpanReference = ChildOf(parent: SpanContext) | FollowsFrom(parent: SpanContext)

  /** What `ctx.Value(opentracing.SpanReference{})` holds. */
  datatype ContextValue = NoValue | ReferenceValue(ref: SpanReference) | OtherValue(typeName: string)

  /** The tracer the context carries (`tel.FromCtx(ctx)`), reduced to its wire
      formats. Binary: `binaryInject` gives the bytes written for a span context,
      `binaryExtract` parses bytes back. TextMap: `textInject` gives the (key, value)
      pairs written through the carrier's Set, in order, and the error returned. */
  datatype Tracer = Tracer(
    binaryInject: SpanContext -> Result<seq<byte>, Error>,
    binaryExtract: seq<byte> -> Result<SpanContext, Error>,
    textInject: SpanContext -> (seq<(string, string)>, Option<Error>))

  /** topic: `cecontext.TopicFrom(ctx)` ("" when unset); span: the span that
      `opentracing.SpanFromContext(ctx)` finds; reference: the SpanReference slot. */
  datatype Context = Context(topic: string, span: Option<SpanContext>, reference: ContextValue, tracer: Tracer)
}
