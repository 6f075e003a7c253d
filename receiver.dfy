/** The consumer (receiver.go): construction with options, the ownership of
    the connection, the result of `OpenInbound` and `Close`, and `Receive`.
    The blocking and the mutual exclusion between `OpenInbound` and `Close` are
    not modelled; each operation is taken as one sequential step. */
module Receiver {
  import opened Wrappers
  import opened Errors
  import opened Nats
  import opened Subscribers
  import opened Options

  /** A buffered `chan struct{}`: its capacity, the signals waiting in it, and
      whether it has been closed. */
  class Signal {
    const capacity: nat
    var pending: nat
    var closed: bool

    constructor (capacity: nat)
      ensures this.capacity == capacity && pending == 0 && !closed
    {
      this.capacity := capacity;
      pending := 0;
      closed := false;
    }
  }

  /** Which case of the `select` in `Receiver.Receive` fired. */
  datatype Selected = Delivered(msg: Msg) | ChannelClosed | ContextDone

  /** `cn.NewMessage(msg)`: the delivered message wrapped as a binding message. */
  datatype Received = Received(msg: Msg)

  /** `Receiver.Receive`: a delivered message comes back wrapped; a closed
      channel or a finished context ends the stream with `io.EOF`. */
  function Receive(sel: Selected): (r: Result<Received, Error>)
    ensures r.Success? <==> sel.Delivered?
    ensures r.Success? ==> r.value.msg == sel.msg
    ensures r.Failure? ==> r.error == EOF
  {
    match sel
    case Delivered(msg) => Success(Received(msg))
    case ChannelClosed => Failure(EOF)
    case ContextDone => Failure(EOF)
  }

  /** What `applyOptions` does to the Subscriber field: apply the options in
      order and stop at the first one that returns an error. */
  function ApplyAll(s: Subscriber, opts: seq<ConsumerOption>): (Subscriber, Option<Error>)
    decreases |opts|
  {
    if opts == [] then (s, None)
    else
      var r := opts[0](s);
      if r.1.Some? then r else ApplyAll(r.0, opts[1..])
  }

  /** Options after one that fails are never applied. */
  lemma {:induction false} ApplyAllStops(s: Subscriber, opts: seq<ConsumerOption>, rest: seq<ConsumerOption>)
    requires ApplyAll(s, opts).1.Some?
    ensures ApplyAll(s, opts + rest) == ApplyAll(s, opts)
    decreases |opts|
  {
    var r := opts[0](s);
    assert (opts + rest)[0] == opts[0];
    if r.1.None? {
      ApplyAllStops(r.0, opts[1..], rest);
      assert (opts + rest)[1..] == opts[1..] + rest;
    }
  }

  /** Options are applied in order: when the first ones all succeed, the next
      one sees the value they produced. */
  lemma {:induction false} ApplyAllAppend(s: Subscriber, opts: seq<ConsumerOption>, opt: ConsumerOption)
    requires ApplyAll(s, opts).1.None?
    ensures ApplyAll(s, opts + [opt]) == opt(ApplyAll(s, opts).0)
    decreases |opts|
  {
    if opts != [] {
      var r := opts[0](s);
      assert (opts + [opt])[0] == opts[0];
      assert (opts + [opt])[1..] == opts[1..] + [opt];
      ApplyAllAppend(r.0, opts[1..], opt);
    }
  }

  /** applyOptions returns nil iff every option returned nil. */
  lemma {:induction false} ApplyAllNilIff(s: Subscriber, opts: seq<ConsumerOption>)
    ensures ApplyAll(s, opts).1.None? <==> AllSucceed(s, opts)
    decreases |opts|
  {
    if opts != [] {
      ApplyAllNilIff(opts[0](s).0, opts[1..]);
    }
  }

  /** Every option in turn returns nil on the value its predecessors left. */
  predicate AllSucceed(s: Subscriber, opts: seq<ConsumerOption>)
    decreases |opts|
  {
    opts == [] || (opts[0](s).1.None? && AllSucceed(opts[0](s).0, opts[1..]))
  }

  /** Options that keep the strategy invariant keep it through applyOptions. */
  lemma {:induction false} ApplyAllWellFormed(s: Subscriber, opts: seq<ConsumerOption>)
    requires WellFormed(s)
    requires forall i :: 0 <= i < |opts| ==> PreservesWellFormed(opts[i])
    ensures WellFormed(ApplyAll(s, opts).0)
    decreases |opts|
  {
    if opts != [] {
      assert PreservesWellFormed(opts[0]);
      ApplyAllWellFormed(opts[0](s).0, opts[1..]);
    }
  }

  class Consumer {
    const ch: Channel
    const conn: Conn
    const subject: string
    var subscriber: Subscriber
    const internalClose: Signal
    var connOwned: bool

    /** The struct literal of `NewConsumerFromConn`: a fresh intake channel, the
        regular strategy, a close signal of capacity 1, and a borrowed connection. */
    constructor (conn: Conn, subject: string)
      ensures this.conn == conn && this.subject == subject
      ensures subscriber == Regular && !connOwned
      ensures fresh(ch) && !ch.closed
      ensures fresh(internalClose) && internalClose.capacity == 1 && internalClose.pending == 0 && !internalClose.closed
    {
      ch := new Channel();
      this.conn := conn;
      this.subject := subject;
      subscriber := Regular;
      internalClose := new Signal(1);
      connOwned := false;
    }

    /** `applyOptions` (receiver.go:140-147). */
    method ApplyOptions(opts: seq<ConsumerOption>) returns (err: Option<Error>)
      modifies this`subscriber
      ensures (subscriber, err) == ApplyAll(old(subscriber), opts)
    {
      var i := 0;
      while i < |opts|
        invariant 0 <= i <= |opts|
        invariant ApplyAll(old(subscriber), opts) == ApplyAll(subscriber, opts[i..])
      {
        assert opts[i..][1..] == opts[i + 1..];
        var r := opts[i](subscriber);
        subscriber := r.0;
        if r.1.Some? {
          return r.1;
        }
        i := i + 1;
      }
      return None;
    }

    /** `OpenInbound` (receiver.go:100-118) without the wait: a subscribe error is
        returned at once and nothing is drained; otherwise the handle is drained
        and the drain's result returned. */
    method OpenInbound() returns (err: Option<Error>, calls: seq<Call>)
      ensures var sub := SubscribeSpec(subscriber, conn.broker, subject, ch);
        match sub.0
        case Failure(e) => err == Some(e) && calls == sub.1
        case Success(d) => err == DrainSpec(d, conn.broker).0 && calls == sub.1 + DrainSpec(d, conn.broker).1
    {
      var sub, subCalls := Subscribe(subscriber, conn.broker, subject, ch);
      if sub.Failure? {
        return Some(sub.error), subCalls;
      }
      var drainCalls;
      err, drainCalls := Drain(sub.value, conn.broker);
      calls := subCalls + drainCalls;
    }

    /** `Close` (receiver.go:120-136): the buffered send of the close signal, then
        the connection is closed iff the consumer owns it, then both channels are
        closed. Sending on a full signal would block and closing a closed channel
        panics, so Close runs once. */
    method Close() returns (err: Option<Error>)
      requires internalClose.pending < internalClose.capacity
      requires !internalClose.closed && !ch.closed
      modifies internalClose, ch, conn
      ensures err == None
      ensures conn.closed == (old(conn.closed) || connOwned)
      ensures internalClose.pending == old(internalClose.pending) + 1
      ensures internalClose.closed && ch.closed
    {
      internalClose.pending := internalClose.pending + 1;
      if connOwned {
        conn.Close();
      }
      internalClose.closed := true;
      ch.closed := true;
      return None;
    }
  }

  /** `NewConsumerFromConn` (receiver.go:80-98): a consumer on a borrowed
      connection, or nil and the first option error. */
  method NewConsumerFromConn(conn: Conn, subject: string, opts: seq<ConsumerOption>)
    returns (c: Consumer?, err: Option<Error>)
    ensures err == ApplyAll(Regular, opts).1
    ensures c != null <==> err.None?
    ensures c != null ==>
      && fresh(c) && fresh(c.ch) && fresh(c.internalClose)
      && c.conn == conn && c.subject == subject && !c.connOwned
      && c.subscriber == ApplyAll(Regular, opts).0
      && c.internalClose.capacity == 1 && c.internalClose.pending == 0
      && !c.internalClose.closed && !c.ch.closed
    ensures c != null && (forall i :: 0 <= i < |opts| ==> PreservesWellFormed(opts[i])) ==> WellFormed(c.subscriber)
  {
    c := new Consumer(conn, subject);
    err := c.ApplyOptions(opts);
    if err.Some? {
      return null, err;
    }
    if forall i :: 0 <= i < |opts| ==> PreservesWellFormed(opts[i]) {
      ApplyAllWellFormed(Regular, opts);
    }
  }

  /** `NewConsumer` (receiver.go:63-78); `connect` is what `nats.Connect` returned.
      The consumer owns the connection only when construction succeeds; when an
      option fails, the connection just opened is closed again. */
  method NewConsumer(connect: Result<Conn, Error>, subject: string, opts: seq<ConsumerOption>)
    returns (c: Consumer?, err: Option<Error>)
    modifies if connect.Success? then {connect.value} else {}
    ensures connect.Failure? ==> c == null && err == Some(connect.error)
    ensures connect.Success? ==> err == ApplyAll(Regular, opts).1
    ensures connect.Success? && err.Some? ==> c == null && connect.value.closed
    ensures connect.Success? && err.None? ==>
      && c != null && fresh(c) && fresh(c.ch) && fresh(c.internalClose)
      && c.conn == connect.value && c.subject == subject && c.connOwned
      && c.conn.closed == old(connect.value.closed)
      && c.subscriber == ApplyAll(Regular, opts).0
      && c.internalClose.capacity == 1 && c.internalClose.pending == 0
      && !c.internalClose.closed && !c.ch.closed
  {
    if connect.Failure? {
      return null, Some(connect.error);
    }
    var conn := connect.value;
    c, err := NewConsumerFromConn(conn, subject, opts);
    if err.Some? {
      conn.Close();
      return null, err;
    }
    c.connOwned := true;
  }

  /** A consumer closed before it was ever opened: the buffered close signal lets
      Close go through, and the connection it owns is closed. */
  method CloseBeforeOpen(connect: Result<Conn, Error>, subject: string, opts: seq<ConsumerOption>)
    returns (c: Consumer?)
    modifies if connect.Success? then {connect.value} else {}
    ensures connect.Success? && ApplyAll(Regular, opts).1.None? ==> c != null
    ensures c != null ==> c.conn.closed && c.ch.closed && c.internalClose.closed
    ensures connect.Success? ==> connect.value.closed
  {
    var err;
    c, err := NewConsumer(connect, subject, opts);
    if c != null {
      err := c.Close();
    }
  }
}
