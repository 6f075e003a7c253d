/** The NATS client as the binding sees it. The client itself is not modelled:
    its answers to subscribe, drain and publish requests are oracle functions,
    and the calls the binding makes are recorded as `Call` values. */
module Nats {
  import opened Wrappers
  import opened Errors
  import opened Bytes

  /** A Go `chan *nats.Msg`; only whether it has been closed is kept. */
  class Channel {
    var closed: bool

    constructor ()
      ensures !closed
    {
      closed := false;
    }
  }

  /** A subscription handle: what was subscribed, under which queue group (None
      for a plain subscribe), the channel it delivers to, and the position of its
      subscribe call among those one `Subscribe` makes (0 for a single one). Each
      call yields its own handle, so the broker may answer two calls for the same
      subject differently. */
  datatype Subscription = Subscription(subject: string, queue: Option<string>, ch: Channel, slot: nat)

  /** A request the binding makes of the broker. */
  datatype Call = SubscribeCall(request: Subscription) | DrainCall(sub: Subscription)

  /** A `nats.Msg` as published. */
  datatype Msg = Msg(subject: string, header: map<string, seq<string>>, data: seq<byte>)

  /** The broker's answers: the error (None for nil) that `ChanSubscribe` /
      `ChanQueueSubscribe`, `Subscription.Drain` and `PublishMsg` return. */
  datatype Broker = Broker(
    subscribeErr: Subscription -> Option<Error>,
    drainErr: Subscription -> Option<Error>,
    publishErr: Msg -> Option<Error>)

  /** A `*nats.Conn`: the broker behind it and whether `Close` has been called. */
  class Conn {
    const broker: Broker
    var closed: bool

    constructor (broker: Broker)
      ensures this.broker == broker && !closed
    {
      this.broker := broker;
      closed := false;
    }

    method Close()
      modifies this
      ensures closed
    {
      closed := true;
    }
  }
}
