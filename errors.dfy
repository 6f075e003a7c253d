/** The error values that flow through the binding. Errors produced by code
    outside the model (the NATS client, the tracer, the CloudEvents writer, a
    message's Finish) are `Opaque`, carrying only their text. */
module Errors {
  import opened Wrappers

  datatype Error =
    | Opaque(text: string)
      /** `ErrInvalidQueueName` of the CloudEvents NATS protocol package */
    | InvalidQueueName
      /** `ErrEmptySubject` (options.go) */
    | EmptySubject
      /** the queue pool's failure: the subject whose subscribe failed, the broker's
          error and the result of draining what had been created (formatted with %v) */
    | SubscribeFailed(subject: string, cause: Error, drain: Option<Error>)
      /** `ErrTraceStateExtension` (cloudevents_carrier.go) */
    | TraceStateMissing
      /** the extension value is not a Go string; carries its dynamic type name */
    | CarrierWrongType(typeName: string)
      /** `base64.CorruptInputError`: the byte offset of the failure */
    | CorruptInput(offset: nat)
      /** `fmt.Errorf("base64 decode %w", cause)` */
    | Base64Failed(cause: Error)
      /** `fmt.Errorf("extract error: %w", cause)` */
    | ExtractFailed(cause: Error)
      /** `errors.WithStack(cause)` */
    | WithStack(cause: Error)
      /** the error `Send` returns when both its body and `in.Finish` failed */
    | FinishFailed(finish: Error, cause: Error)
      /** `io.EOF` */
    | EOF

  /** Decimal digits of n, as `%d` prints them. */
  function Decimal(n: nat): (s: string)
    ensures |s| >= 1
    decreases n
  {
    var d := ['0' + (n % 10) as char];
    if n < 10 then d else Decimal(n / 10) + d
  }

  /** The text `err.Error()` returns. The queue pool's `%q` is written as plain
      double quotes around the subject. A wrapping error's text ends with the
      text of the error it wraps, and the queue pool's error spells out the
      broker's error right after the subject. */
  function Message(e: Error): (r: string)
    ensures Unwrap(e).Some? ==> EndsWith(r, Message(Unwrap(e).value))
    ensures e.SubscribeFailed? ==> OccursAt(r, e.subject, |"subject \""|)
    ensures e.SubscribeFailed? ==>
      OccursAt(r, Message(e.cause), |"subject \"" + e.subject + "\" subscribe error "|)
  {
    match e
    case Opaque(text) => text
    case InvalidQueueName => "invalid queue name for QueueSubscriber"
    case EmptySubject => "empty subject list"
    case SubscribeFailed(subject, cause, drain) =>
      PoolFailureText(subject, Message(cause), if drain.None? then "<nil>" else Message(drain.value))
    case TraceStateMissing => "cloudevents extension not contain key: tracestate"
    case CarrierWrongType(typeName) => "carrier casting wrong type " + typeName
    case CorruptInput(offset) => "illegal base64 data at input byte " + Decimal(offset)
    case Base64Failed(cause) => Wrapped("base64 decode ", Message(cause))
    case ExtractFailed(cause) => Wrapped("extract error: ", Message(cause))
    case WithStack(cause) => Message(cause)
    case FinishFailed(finish, cause) => FinishFailedText(Message(finish), Message(cause))
    case EOF => "EOF"
  }

  /** `fmt.Errorf(prefix + "%w", cause)` */
  function Wrapped(prefix: string, cause: string): (r: string)
    ensures EndsWith(r, cause)
  {
    prefix + cause
  }

  /** The queue pool's `fmt.Errorf("subject %q subscribe error %v (drain result: %v)", ...)`. */
  function PoolFailureText(subject: string, cause: string, drain: string): (r: string)
    ensures OccursAt(r, subject, |"subject \""|)
    ensures OccursAt(r, cause, |"subject \"" + subject + "\" subscribe error "|)
  {
    var head := "subject \"" + subject + "\" subscribe error ";
    assert (head + cause + " (drain result: " + drain + ")")[|"subject \""|..|"subject \""| + |subject|] == subject;
    assert (head + cause + " (drain result: " + drain + ")")[|head|..|head| + |cause|] == cause;
    head + cause + " (drain result: " + drain + ")"
  }

  /** The text of `Send`'s error when both its body and `in.Finish` failed. */
  function FinishFailedText(finish: string, cause: string): (r: string)
    ensures EndsWith(r, cause)
  {
    "failed to call in.Finish() when error already occurred: " + finish + ": " + cause
  }

  /** `errors.Unwrap`: the error wrapped with `%w` (or by `WithStack`), if any. */
  function Unwrap(e: Error): Option<Error>
  {
    match e
    case Base64Failed(cause) => Some(cause)
    case ExtractFailed(cause) => Some(cause)
    case WithStack(cause) => Some(cause)
    case FinishFailed(_, cause) => Some(cause)
    case _ => None
  }

  /** t occurs in s starting at index i. */
  predicate OccursAt(s: string, t: string, i: int)
  {
    0 <= i <= |s| - |t| && s[i..i + |t|] == t
  }

  /** s ends with t. */
  predicate EndsWith(s: string, t: string)
  {
    |t| <= |s| && s[|s| - |t|..] == t
  }

  /** t occurs in s as a contiguous piece. */
  ghost predicate Contains(s: string, t: string)
  {
    exists i :: OccursAt(s, t, i)
  }
}
