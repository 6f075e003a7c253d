# protonats in Dafny

This project models protonats, a NATS transport binding for the CloudEvents Go
SDK. It covers the bookkeeping the binding does around the NATS client and the
tracer:

- **Subscription strategies** (`Subscribers`): regular, queue-group and
  queue-pool subscribing. When a pool's subscribe fails, the pool rolls back by
  draining what it already created. `DrainList.Drain` drains in order and stops
  at the first error.
- **Consumer options** (`Options`) and the **consumer** (`Receiver`):
  - construction applies options in order and stops at the first failure;
  - the connection-ownership flag decides what `Close` closes;
  - `OpenInbound` picks which result to return;
  - `Receive` maps the outcome of its `select` to a result.
- **Trace header carrier** (`TracingAdapter`): the opentracing TextMap adapter
  over a `nats.Header` (`map<string, seq<string>>`), with `Set`, `ForeachKey`
  and `GetTraceValue`.
- **Trace extension on the event** (`TraceCarrier`):
  - injection stores the tracer's binary span context in the `tracestate`
    extension as unpadded standard base64 (`Base64`: the alphabet of section 4
    of RFC 4648, padding omitted as section 3.2 permits);
  - extraction follows a fixed ladder of error checks.
- **Send** (`Sending`):
  - `Send` writes the message, then resolves the subject;
  - it starts a span and injects it into a fresh header;
  - it publishes the message;
  - the deferred `Finish` call and the error-combination rule run on every path.
- **Observability** (`Observability`):
  - metric counters keyed by counter and event type;
  - the send interceptor's counter classification;
  - the invoker's start options, and the no-op interceptors.

### Modelling choices

- **The NATS client is an oracle.** It is `Nats.Broker`: functions that give
  the error (or none) for each subscribe, drain and publish request. A
  subscription handle records the position of its subscribe call within one
  `Subscribe`, so two calls for the same subject are distinct handles and may
  get different answers, to their subscribe and to their drain. The
  operations that talk to the broker return the sequence of calls they made.
  That sequence states "the prefix is subscribed, the suffix is never
  attempted" exactly.
- **The tracer is an oracle too.** It is `Contexts.Tracer`: binary inject and
  extract, and the (key, value) pairs its TextMap inject writes through `Set`.
- **`ConsumerOption` is a function from one `Subscriber` to another, plus an
  error.** In Go it is a closure over `*Consumer`, but both options in the
  source touch only the `Subscriber` field. `Consumer.ApplyOptions` assigns that
  field in place, in a loop.
- **Go map iteration order.** `ForeachKey` picks each next key with `:|`, so
  the verified contracts hold for every key order.
  `ForeachKey` also returns the order it took.
- **Base64 decoding is Go's non-strict decoder.** It skips `\r` and `\n` and
  reports the offset of the first invalid character. When the remaining length
  leaves a lone final character, it reports the last offset instead. It ignores
  the unused bits of a final group.

### Notes on the code's behaviour

- `RecordSendingEvent` increments the reader counters: read-events at once,
  then decode-events or the three error counters in its callback. It does not
  inject a trace extension into the event.
- The callback of `RecordCallingInvoker` does nothing. That interceptor takes
  its parent link only from a `SpanReference` stored in the context, not from
  the event's extension.
- The span that `Send` starts is never finished.

## Model

| member | source | states |
|---|---|---|
| Subscribers.SubscribeRegular | subscriber.go:28-30 | exactly one subscribe call, for the given subject with no queue group on the given channel; the broker's answer is returned unchanged |
| Subscribers.SubscribeQueue | subscriber.go:40-42 | exactly one subscribe call, for the given subject under the strategy's queue group; the broker's answer is returned unchanged |
| Subscribers.SubscribePool | subscriber.go:51-64 | the loop's result and broker calls equal those of the pool specification, and the subject argument plays no part |
| Subscribers.PoolAllOrNothing | subscriber.go:52-63 | the pool succeeds iff every subject subscribes; then its i-th handle is subjects[i] under the queue on the one channel, after one subscribe per subject in list order |
| Subscribers.PoolRollback | subscriber.go:54-58 | when subjects[k] fails, later subjects are never attempted; the error names subjects[k] and carries the broker error; handles 0..k-1 are drained in order up to the first drain failure, which is reported |
| Subscribers.DrainList | subscriber.go:69-77 | the loop's error and drain calls equal those of the drain-list specification |
| Subscribers.DrainListInOrder | subscriber.go:70-74 | members are drained in index order up to and including the first failing one, whose error is returned; later members are never drained |
| Subscribers.DrainListNilIff | subscriber.go:69-77 | the drain of a list returns nil iff every member drains without error (the empty list included) |
| Subscribers.Drain | subscriber.go:14-16 | draining a single handle makes one drain call; draining a list behaves as DrainList |
| Subscribers.Subscribe | subscriber.go:19-21 | dispatches to the installed strategy: regular, queue or pool |
| Options.WithQueueSubscriber | options.go:11-19 | returns nil iff the queue name is non-empty; an empty name gives ErrInvalidQueueName with the field unchanged; otherwise installs a queue subscriber for that queue; keeps the strategy invariant |
| Options.WithQueuePoolSubscriber | options.go:22-36 | the queue name is checked before the subject list; a named queue with no subjects gives ErrEmptySubject with the field unchanged; on success installs the pool with the subjects in order |
| Receiver.Receive | receiver.go:35-46 | success iff a message was delivered, and then it wraps that message; a closed channel or a finished context gives io.EOF |
| Receiver.ApplyAllStops | receiver.go:141-144 | once an option fails, options after it are never applied |
| Receiver.ApplyAllAppend | receiver.go:141-146 | options apply in order: after a clean prefix, the next option sees the value the prefix left |
| Receiver.ApplyAllNilIff | receiver.go:140-147 | applying the options returns nil iff each option in turn returns nil |
| Receiver.ApplyAllWellFormed | receiver.go:140-147 | options that keep the strategy invariant keep it through the whole loop |
| Receiver.Consumer.constructor | receiver.go:81-90 | a fresh intake channel, the regular subscriber, a borrowed connection, a close signal of capacity 1 |
| Receiver.Consumer.ApplyOptions | receiver.go:140-147 | the subscriber field and error after the loop are those of applying the options in order and stopping at the first failure |
| Receiver.Consumer.OpenInbound | receiver.go:100-118 | a subscribe error is returned at once with no drain call; otherwise the handle is drained and the drain's result returned |
| Receiver.Consumer.Close | receiver.go:120-136 | the close signal is sent, the connection is closed iff the consumer owns it, both channels are closed, and the result is nil |
| Receiver.NewConsumerFromConn | receiver.go:80-98 | nil consumer and the first option error when an option fails; otherwise the defaults with the options applied and the connection not owned |
| Receiver.NewConsumer | receiver.go:63-78 | a connect error is returned as is; when an option fails, the new connection is closed and no consumer is returned; only a successful construction owns the connection, and it keeps the subject it was given |
| Receiver.CloseBeforeOpen | receiver.go:124-133 | when connecting and every option succeed, a consumer exists and closing it before it was ever opened goes through on the buffered signal, closing both channels and the connection it owns; after a successful connect the connection ends up closed on the option-failure path too |
| TracingAdapter.KHeader.constructor | adapter/tracing_adapter.go:24-26 | the carrier writes through to the header it was given |
| TracingAdapter.KHeader.Set | adapter/tracing_adapter.go:28-30 | the key now holds exactly the one value; every other key keeps its values |
| TracingAdapter.KHeader.ForeachKey | adapter/tracing_adapter.go:32-42 | keys are taken in some order, each once, and each key's values in list order; with no handler error every pair is visited and nil returned; otherwise visiting stops at the first error, which is returned; the header is not modified |
| TracingAdapter.VisitsCover | adapter/tracing_adapter.go:33-34 | whatever the key order, the pairs visited are exactly the (key, value) pairs stored in the header |
| TracingAdapter.VisitsCount | adapter/tracing_adapter.go:33-40 | when each key is taken once, every stored (key, value) pair is visited exactly as often as the value occurs in that key's list |
| TracingAdapter.VisitsPrefix | adapter/tracing_adapter.go:35-37 | stopping early visits a prefix of what the full loop would visit |
| TracingAdapter.KHeader.GetTraceValue | adapter/tracing_adapter.go:44-54 | returns something iff the jaeger key is present, and then the bytes of its first value; requires that key's list to be non-empty |
| TracingAdapter.KHeader.SetThenGetTraceValue | adapter/tracing_adapter.go:28-51 | after Set of the jaeger key, GetTraceValue returns the bytes of the value set, and other keys keep their values |
| Bytes.Utf8 | adapter/tracing_adapter.go:50 | the Go conversion of a string to bytes is at least as long as the string, and equally long for ASCII text |
| TraceCarrier.InjectDistributedTracingExtension | cloudevents_carrier.go:25-43 | no span, or a failing tracer inject, leaves the event unchanged; otherwise the tracestate extension is set to the unpadded base64 of the injected bytes, replacing any earlier value |
| TraceCarrier.ExtractDistributedTracingExtension | cloudevents_carrier.go:46-69 | the error ladder: a missing extension gives ErrTraceStateExtension, a non-string value the type error naming its type, invalid base64 exactly the wrapped CorruptInputError at the decoder's offset (inside the input, and no tracer call), a tracer failure exactly the wrapped tracer error; success iff the tracer accepts the decoded bytes, with its span context |
| TraceCarrier.ExtractInjected | cloudevents_carrier.go:40-65 | extraction from an extension that injection wrote never fails at the base64 step: the tracer gets exactly the injected bytes |
| TraceCarrier.InjectThenExtract | cloudevents_carrier.go:25-69 | a span context injected into an event is extracted back, when the tracer's binary format reads back what it writes |
| Base64.Encode | cloudevents_carrier.go:40 | the unpadded encoding never ends in a lone character of a group, which the decoder would reject |
| Base64.EncodeAlphabet | cloudevents_carrier.go:40 | the encoding holds only standard-alphabet characters, with no '=' |
| Base64.EncodeLength | cloudevents_carrier.go:40 | n bytes encode to ceil(4n/3) characters |
| Base64.DecodeEncode | cloudevents_carrier.go:57 | decoding the encoding of any byte sequence gives that sequence back |
| Base64.Decode | cloudevents_carrier.go:57-60 | a decode failure reports an offset inside the input |
| Errors.Message | cloudevents_carrier.go:59-65 | the text of an error that wraps another ends with the wrapped error's text: the `%w` wrappers here, `errors.WithStack` at sender.go:70 (text unchanged) and Send's combined error at sender.go:50 |
| Errors.FinishFailedText | sender.go:50 | the text of Send's combined error ends with the body error's text, which it wraps with `%w` |
| Errors.PoolFailureText | subscriber.go:57 | the queue pool's error text holds the failing subject inside the quotes, and the broker's error text right after the quoted subject |
| Sending.Target | sender.go:60-64 | the context's topic when it is non-empty, otherwise the sender's subject |
| Sending.InjectedLastWins | sender.go:66-69 | in the header handed to the tracer, a key the tracer sets holds exactly the last value set under it |
| Sending.InjectedKeeps | sender.go:66-69 | a key the tracer does not set keeps its values |
| Sending.CombineFinish | sender.go:45-53 | a nil Finish leaves the body error as it is; a failing Finish after a nil body becomes the result; when both fail, the result unwraps to the body error |
| Sending.CombinedMessage | sender.go:49-50 | when both fail, the combined message contains Finish's text and the body error's text |
| Sending.Send | sender.go:44-78 | Finish is called exactly once, with the body's error; a WriteMsg failure starts no span and publishes nothing; an inject failure is wrapped and nothing is published; otherwise one message goes out, with the resolved subject, the injected header and the written bytes, and the publish error is the body's error |
| Observability.Bump | observability.go:54 | an increment raises exactly that counter for that event type by one and leaves every other counter unchanged |
| Observability.CallbackCounts | observability.go:42-51 | a nil outcome raises only decode-events; an error raises fatal, process and error-events and not decode-events; read-events and other event types are untouched |
| Observability.ClassifiedOnce | observability.go:42-51 | every completed send is counted once: decode-events plus error-events grows by exactly one |
| Observability.Metrics.Add | observability.go:54 | the counter table after one increment |
| Observability.RecordSendingEvent | observability.go:29-63 | read-events for the event type goes up by one; the span "SEND EVENT: type" is started with type, id and text fields; the context returned holds the new span |
| Observability.Complete | observability.go:36-52 | the send callback counts the outcome as in CallbackCounts, puts an error on the span, and finishes the span on every path; the no-op callback changes nothing |
| Observability.InvokerOptions | observability.go:79-90 | the tag set comes first; the context's SpanReference is appended iff the context holds one |
| Observability.RecordCallingInvoker | observability.go:78-100 | starts "GET EVENT: type" with the tag set (event type, id, event info) first and then the context's SpanReference iff it holds one, and returns the telemetry's context holding the new span, and a no-op callback |
| Observability.CompleteInvoker | observability.go:99 | completing the invoker's callback changes no counter, whatever the outcome |
| Observability.RecordRequestEvent | observability.go:102-104 | the context comes back unchanged, with a no-op callback |
| Observability.InboundContextDecorators | observability.go:65-67 | the list of decorators is empty |

## Left out

- Concurrency: the mutex, the wait in `OpenInbound`, and the `select` in
  `Receive` are not modelled. Each operation is one sequential step, and
  `Receive` takes the fired case as its input.
- `Receiver.Consumer.Close` requires room in the close signal and open
  channels. A second `Close` blocks or panics in Go, so this is what the
  source demands of its callers.
- `Receiver.Consumer.OpenInbound` does not model the wait between subscribing
  and draining.
- The NATS client is an oracle. `nats.Connect`, subscribe, drain, publish and
  `Conn.Close` have no behaviour of their own here. `NewConsumer` receives the
  result of `nats.Connect` as a parameter.
- Tracer and span internals are left out: jaeger, `tel`, span tags such as the
  component and span kind, `tel.UpdateTraceFields`, and the binary and TextMap
  formats. The tracer is an oracle. The context of a newly started span is a
  parameter (`started`), and so is the telemetry's own context (`base`) in
  `RecordCallingInvoker`.
- `cn.WriteMsg` serialization and any transformers are reduced to their
  outcome: the bytes written, or an error. The wrapping by `cn.NewMessage` is a
  plain record.
- Durations and handling-time metrics (`time.Since`, the `duration` span field)
  depend on the wall clock and are not modelled.
- The warnings `InjectDistributedTracingExtension` logs are not modelled.
- `RecordReceivedMalformedEvent` only panics, so it is not modelled.
- `NewSender` and `NewSenderFromConn` only wrap constructors of the
  CloudEvents SDK. They are not modelled; `Sending.Sender` holds the connection
  and the default subject directly. `NewReceiver` only stores the channel in a
  `Receiver`; the model's `Receive` takes the fired case of its `select` as its
  input.
- Bytes.Utf8: the model's strings are sequences of Unicode scalar values, so a
  header value or a `tracestate` extension that is not valid UTF-8, which a Go
  string may hold, cannot be expressed; for such values Go's `[]byte(s)` keeps
  the raw bytes and the base64 decoder reports byte offsets, neither of which
  the model covers.
- Errors.Message: the text of `ErrInvalidQueueName` comes from the CloudEvents
  NATS protocol package, which is not part of this model; the text used is
  assumed.
- Errors.Message renders Go's `%q` as plain double quotes, without Go's
  escaping of special characters.
- Errors.Message writes `errors.WithStack` as its cause's message; the stack
  trace is left out.
- A Go map has no iteration order. The model proves the contracts for every
  order; it does not pick one.
