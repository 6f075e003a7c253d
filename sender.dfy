/** `Sender.Send` (sender.go): write the event, resolve the subject, start a
    span, inject it into a fresh header, publish; a deferred `in.Finish` sees the
    body's error and may replace or wrap it. */
module Sending {
  import opened Wrappers
  import opened Errors
  import opened Bytes
  import opened Nats
  import opened Contexts
  import opened TracingAdapter

  /** The sender: the connection it publishes on and its default subject. */
  datatype Sender = Sender(conn: Conn, subject: string)

  /** The `binding.Message` being sent: what `cn.WriteMsg` makes of it (the bytes
      written, or the error), and the error its `Finish` returns for a given
      body error. */
  datatype BindingMessage = BindingMessage(
    write: Result<seq<byte>, Error>,
    finish: Option<Error> -> Option<Error>)

  /** The subject a message is published to: the context's topic when one is set,
      otherwise the sender's own subject. */
  function Target(s: Sender, ctx: Context): (subject: string)
    ensures ctx.topic != "" ==> subject == ctx.topic
    ensures ctx.topic == "" ==> subject == s.subject
  {
    if ctx.topic != "" then ctx.topic else s.subject
  }

  /** The name of the span Send starts. */
  function SpanName(subject: string): string
  {
    "-> NATS://" + subject
  }

  /** The header after the carrier's Set has been called with each pair in turn. */
  function Injected(m: map<string, seq<string>>, sets: seq<(string, string)>): map<string, seq<string>>
    decreases |sets|
  {
    if sets == [] then m
    else Injected(m, sets[..|sets| - 1])[sets[|sets| - 1].0 := [sets[|sets| - 1].1]]
  }

  /** A key the tracer sets holds exactly the last value set under it. */
  lemma {:induction false} InjectedLastWins(m: map<string, seq<string>>, sets: seq<(string, string)>, i: nat)
    requires i < |sets|
    requires forall j :: i < j < |sets| ==> sets[j].0 != sets[i].0
    ensures sets[i].0 in Injected(m, sets) && Injected(m, sets)[sets[i].0] == [sets[i].1]
    decreases |sets|
  {
    if i < |sets| - 1 {
      InjectedLastWins(m, sets[..|sets| - 1], i);
    }
  }

  /** A key the tracer does not set keeps what the header held before. */
  lemma {:induction false} InjectedKeeps(m: map<string, seq<string>>, sets: seq<(string, string)>, k: string)
    requires forall j :: 0 <= j < |sets| ==> sets[j].0 != k
    ensures k in Injected(m, sets) <==> k in m
    ensures k in m ==> Injected(m, sets)[k] == m[k]
    decreases |sets|
  {
    if sets != [] {
      InjectedKeeps(m, sets[..|sets| - 1], k);
    }
  }

  /** The deferred closure's rule: a nil Finish leaves the body's error alone; a
      failing Finish after a clean body becomes the result; when both fail, the
      result wraps the body's error and its text names Finish's error. */
  function CombineFinish(body: Option<Error>, finish: Option<Error>): (r: Option<Error>)
    ensures finish.None? ==> r == body
    ensures finish.Some? && body.None? ==> r == finish
    ensures finish.Some? && body.Some? ==> r.Some? && Unwrap(r.value) == body
  {
    if finish.None? then body
    else if body.None? then finish
    else Some(FinishFailed(finish.value, body.value))
  }

  /** When both fail, the combined message carries both texts: Finish's error
      and then the body's. */
  lemma CombinedMessage(body: Error, finish: Error)
    ensures var r := CombineFinish(Some(body), Some(finish)).value;
      Contains(Message(r), Message(finish)) && Contains(Message(r), Message(body))
  {
    FinishTextContains(Message(finish), Message(body));
  }

  lemma FinishTextContains(finish: string, cause: string)
    ensures Contains(FinishFailedText(finish, cause), finish)
    ensures Contains(FinishFailedText(finish, cause), cause)
  {
    var lead := "failed to call in.Finish() when error already occurred: ";
    var text := FinishFailedText(finish, cause);
    assert text[|lead|..|lead| + |finish|] == finish;
    assert OccursAt(text, finish, |lead|);
    assert text[|text| - |cause|..] == cause;
    assert OccursAt(text, cause, |text| - |cause|);
  }

  /** `Send`. `started` is the context of the span that `tel.StartSpanFromContext`
      creates, chosen by the tracer. Besides the result it returns the messages
      published, the names of the spans started and the errors `Finish` was
      called with. */
  method Send(s: Sender, ctx: Context, message: BindingMessage, started: SpanContext)
    returns (err: Option<Error>, published: seq<Msg>, spans: seq<string>, finishedWith: seq<Option<Error>>)
    ensures |finishedWith| == 1 && err == CombineFinish(finishedWith[0], message.finish(finishedWith[0]))
    ensures |published| <= 1 && |spans| <= 1
    ensures message.write.Failure? ==>
      spans == [] && published == [] && finishedWith == [Some(message.write.error)]
    ensures message.write.Success? ==> spans == [SpanName(Target(s, ctx))]
    ensures message.write.Success? && ctx.tracer.textInject(started).1.Some? ==>
      published == [] && finishedWith == [Some(WithStack(ctx.tracer.textInject(started).1.value))]
    ensures message.write.Success? && ctx.tracer.textInject(started).1.None? ==>
      var msg := Msg(Target(s, ctx), Injected(map[], ctx.tracer.textInject(started).0), message.write.value);
      published == [msg] && finishedWith == [s.conn.broker.publishErr(msg)]
  {
    var body: Option<Error>;
    published, spans := [], [];
    if message.write.Failure? {
      body := Some(message.write.error);
    } else {
      var subject := s.subject;
      if ctx.topic != "" {
        subject := ctx.topic;
      }
      var h := new Header(map[]);
      spans := [SpanName(subject)];
      var carrier := new KHeader(h);
      var inject := ctx.tracer.textInject(started);
      var sets := inject.0;
      var i := 0;
      while i < |sets|
        invariant 0 <= i <= |sets|
        invariant h.entries == Injected(map[], sets[..i])
      {
        assert sets[..i + 1][..i] == sets[..i];
        carrier.Set(sets[i].0, sets[i].1);
        i := i + 1;
      }
      assert sets[..i] == sets;
      if inject.1.Some? {
        body := Some(WithStack(inject.1.value));
      } else {
        var msg := Msg(subject, h.entries, message.write.value);
        published := [msg];
        body := s.conn.broker.publishErr(msg);
      }
    }
    finishedWith := [body];
    err := CombineFinish(body, message.finish(body));
  }
}
