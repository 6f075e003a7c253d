/** Subscription strategies (subscriber.go): how the consumer subscribes — a
    plain subscription, a queue-group subscription, or a pool of queue-group
    subscriptions over a list of subjects — and how the handles are drained.
    Every method returns, beside Go's results, the broker calls it made in order. */
module Subscribers {
  import opened Wrappers
  import opened Errors
  import opened Nats

  /** The three implementations of the `Subscriber` interface. */
  datatype Subscriber =
    | Regular
    | Queue(queue: string)
    | QueuePool(queue: string, subjects: seq<string>)

  /** What the option constructors guarantee of an installed strategy: a queue
      group is named, and a pool has at least one subject. */
  predicate WellFormed(s: Subscriber)
  {
    match s
    case Regular => true
    case Queue(queue) => queue != ""
    case QueuePool(queue, subjects) => queue != "" && subjects != []
  }

  /** A `Dryer`: a single subscription, or a `DrainList` of them. */
  datatype Dryer = Single(sub: Subscription) | Pool(subs: seq<Subscription>)

  /** The index of the first element the broker rejects; |xs| when none is rejected. */
  function FirstFailure(xs: seq<Subscription>, fails: Subscription -> Option<Error>): (k: nat)
    ensures k <= |xs|
    ensures forall i :: 0 <= i < k ==> fails(xs[i]).None?
    ensures k < |xs| ==> fails(xs[k]).Some?
  {
    if xs == [] then 0
    else if fails(xs[0]).Some? then 0
    else 1 + FirstFailure(xs[1..], fails)
  }

  function Drains(subs: seq<Subscription>): (calls: seq<Call>)
    ensures |calls| == |subs|
  {
    seq(|subs|, i requires 0 <= i < |subs| => DrainCall(subs[i]))
  }

  function Subscribes(reqs: seq<Subscription>): (calls: seq<Call>)
    ensures |calls| == |reqs|
  {
    seq(|reqs|, i requires 0 <= i < |reqs| => SubscribeCall(reqs[i]))
  }

  /** The subscriptions a pool requests: every subject, in list order, under the
      one queue group and onto the one channel. */
  function Requests(queue: string, subjects: seq<string>, ch: Channel): (reqs: seq<Subscription>)
    ensures |reqs| == |subjects|
  {
    seq(|subjects|, i requires 0 <= i < |subjects| => Subscription(subjects[i], Some(queue), ch, i))
  }

  // ---------------------------------------------------------------- draining

  /** What `DrainList.Drain` does: drain the first member; on its error stop and
      return it, otherwise go on with the rest. */
  function DrainListSpec(subs: seq<Subscription>, broker: Broker): (Option<Error>, seq<Call>)
  {
    if subs == [] then (None, [])
    else
      var e := broker.drainErr(subs[0]);
      if e.Some? then (e, [DrainCall(subs[0])])
      else
        var rest := DrainListSpec(subs[1..], broker);
        (rest.0, [DrainCall(subs[0])] + rest.1)
  }

  /** Members are drained in index order up to and including the first failing
      one, whose error is returned; members after it are never drained. */
  lemma {:induction false} DrainListInOrder(subs: seq<Subscription>, broker: Broker)
    ensures var k := FirstFailure(subs, broker.drainErr);
      && DrainListSpec(subs, broker).1 == Drains(subs[..if k < |subs| then k + 1 else k])
      && DrainListSpec(subs, broker).0 == (if k < |subs| then broker.drainErr(subs[k]) else None)
  {
    if subs != [] && broker.drainErr(subs[0]).None? {
      DrainListInOrder(subs[1..], broker);
      var k := FirstFailure(subs, broker.drainErr);
      var n := if k < |subs| then k + 1 else k;
      assert subs[1..][..n - 1] == subs[1..n];
      assert Drains(subs[..n]) == [DrainCall(subs[0])] + Drains(subs[1..n]);
    }
  }

  /** `DrainList.Drain` returns nil iff every member drains without error; in
      particular an empty list drains to nil. */
  lemma {:induction false} DrainListNilIff(subs: seq<Subscription>, broker: Broker)
    ensures DrainListSpec(subs, broker).0.None? <==> forall i :: 0 <= i < |subs| ==> broker.drainErr(subs[i]).None?
  {
    DrainListInOrder(subs, broker);
  }

  /** `DrainList.Drain` (subscriber.go:69-77). */
  method DrainList(subs: seq<Subscription>, broker: Broker) returns (err: Option<Error>, calls: seq<Call>)
    ensures (err, calls) == DrainListSpec(subs, broker)
  {
    DrainListInOrder(subs, broker);
    calls := [];
    var i := 0;
    while i < |subs|
      invariant 0 <= i <= |subs|
      invariant calls == Drains(subs[..i])
      invariant forall j :: 0 <= j < i ==> broker.drainErr(subs[j]).None?
    {
      calls := calls + [DrainCall(subs[i])];
      assert calls == Drains(subs[..i + 1]);
      var e := broker.drainErr(subs[i]);
      if e.Some? {
        assert FirstFailure(subs, broker.drainErr) == i;
        return e, calls;
      }
      i := i + 1;
    }
    assert subs[..i] == subs;
    return None, calls;
  }

  /** `Dryer.Drain` for either kind of handle. */
  function DrainSpec(d: Dryer, broker: Broker): (Option<Error>, seq<Call>)
  {
    match d
    case Single(sub) => (broker.drainErr(sub), [DrainCall(sub)])
    case Pool(subs) => DrainListSpec(subs, broker)
  }

  method Drain(d: Dryer, broker: Broker) returns (err: Option<Error>, calls: seq<Call>)
    ensures (err, calls) == DrainSpec(d, broker)
  {
    match d
    case Single(sub) =>
      err, calls := broker.drainErr(sub), [DrainCall(sub)];
    case Pool(subs) =>
      err, calls := DrainList(subs, broker);
  }

  // ------------------------------------------------------------- subscribing

  /** The broker's `(Dryer, error)` for one subscribe request, passed on unchanged. */
  function Answer(broker: Broker, req: Subscription): (r: Result<Dryer, Error>)
    ensures r.Success? <==> broker.subscribeErr(req).None?
  {
    match broker.subscribeErr(req)
    case Some(e) => Failure(e)
    case None => Success(Single(req))
  }

  /** `RegularSubscriber.Subscribe`: one `ChanSubscribe` of exactly the given
      subject, with no queue group; the broker's result is returned unchanged. */
  function SubscribeRegular(broker: Broker, subject: string, ch: Channel): (r: (Result<Dryer, Error>, seq<Call>))
    ensures r.1 == [SubscribeCall(Subscription(subject, None, ch, 0))]
    ensures r.0 == Answer(broker, r.1[0].request)
  {
    var req := Subscription(subject, None, ch, 0);
    (Answer(broker, req), [SubscribeCall(req)])
  }

  /** `QueueSubscriber.Subscribe`: one `ChanQueueSubscribe` of the given subject
      under the strategy's queue group; the broker's result is returned unchanged. */
  function SubscribeQueue(broker: Broker, queue: string, subject: string, ch: Channel): (r: (Result<Dryer, Error>, seq<Call>))
    ensures r.1 == [SubscribeCall(Subscription(subject, Some(queue), ch, 0))]
    ensures r.0 == Answer(broker, r.1[0].request)
  {
    var req := Subscription(subject, Some(queue), ch, 0);
    (Answer(broker, req), [SubscribeCall(req)])
  }

  /** What `SubjectQueuePool.Subscribe` does: subscribe the pool's subjects in
      order; at the first failure k, drain the k handles already created and
      fail naming subjects[k]; otherwise return all the handles. */
  function PoolSpec(queue: string, subjects: seq<string>, broker: Broker, ch: Channel): (Result<Dryer, Error>, seq<Call>)
  {
    var reqs := Requests(queue, subjects, ch);
    var k := FirstFailure(reqs, broker.subscribeErr);
    if k == |reqs| then (Success(Pool(reqs)), Subscribes(reqs))
    else
      var cleanup := DrainListSpec(reqs[..k], broker);
      (Failure(SubscribeFailed(subjects[k], broker.subscribeErr(reqs[k]).value, cleanup.0)),
       Subscribes(reqs[..k + 1]) + cleanup.1)
  }

  /** All or nothing: the pool succeeds iff every subject's subscribe succeeds,
      and then its i-th handle is the subscription of subjects[i] under the
      queue group on the given channel, after exactly one subscribe per subject. */
  lemma PoolAllOrNothing(queue: string, subjects: seq<string>, broker: Broker, ch: Channel)
    ensures var (r, calls) := PoolSpec(queue, subjects, broker, ch);
      && (r.Success? <==> forall i :: 0 <= i < |subjects| ==> broker.subscribeErr(Subscription(subjects[i], Some(queue), ch, i)).None?)
      && (r.Success? ==>
            && r.value.Pool?
            && |r.value.subs| == |subjects|
            && |calls| == |subjects|
            && (forall i :: 0 <= i < |subjects| ==> r.value.subs[i] == Subscription(subjects[i], Some(queue), ch, i))
            && (forall i :: 0 <= i < |subjects| ==> calls[i] == SubscribeCall(r.value.subs[i])))
  {
    var reqs := Requests(queue, subjects, ch);
    assert forall i :: 0 <= i < |subjects| ==> reqs[i] == Subscription(subjects[i], Some(queue), ch, i);
  }

  /** Rollback: when the subscribe of subjects[k] fails, subjects after k are never
      attempted, the error names subjects[k] and carries the broker's error, and
      the handles of subjects[0..k) are then drained in order — all of them when
      no drain fails, otherwise up to and including the first failing one. */
  lemma {:induction false} PoolRollback(queue: string, subjects: seq<string>, broker: Broker, ch: Channel, k: nat)
    requires k < |subjects|
    requires forall i :: 0 <= i < k ==> broker.subscribeErr(Subscription(subjects[i], Some(queue), ch, i)).None?
    requires broker.subscribeErr(Subscription(subjects[k], Some(queue), ch, k)).Some?
    ensures var (r, calls) := PoolSpec(queue, subjects, broker, ch);
      var reqs := Requests(queue, subjects, ch);
      var j := FirstFailure(reqs[..k], broker.drainErr);
      && r.Failure?
      && r.error.SubscribeFailed?
      && r.error.subject == subjects[k]
      && r.error.cause == broker.subscribeErr(reqs[k]).value
      && calls == Subscribes(reqs[..k + 1]) + Drains(reqs[..if j < k then j + 1 else k])
      && (r.error.drain.None? <==> j == k)
      && r.error.drain == (if j < k then broker.drainErr(reqs[j]) else None)
  {
    var reqs := Requests(queue, subjects, ch);
    assert forall i :: 0 <= i <= k ==> reqs[i] == Subscription(subjects[i], Some(queue), ch, i);
    assert FirstFailure(reqs, broker.subscribeErr) == k;
    DrainListInOrder(reqs[..k], broker);
  }

  /** `SubjectQueuePool.Subscribe` (subscriber.go:51-64); the subject argument is ignored. */
  method SubscribePool(queue: string, subjects: seq<string>, broker: Broker, ignoredSubject: string, ch: Channel)
    returns (r: Result<Dryer, Error>, calls: seq<Call>)
    ensures (r, calls) == PoolSpec(queue, subjects, broker, ch)
  {
    ghost var reqs := Requests(queue, subjects, ch);
    var dryList: seq<Subscription> := [];
    calls := [];
    var i := 0;
    while i < |subjects|
      invariant 0 <= i <= |subjects|
      invariant dryList == reqs[..i]
      invariant calls == Subscribes(reqs[..i])
      invariant forall j :: 0 <= j < i ==> broker.subscribeErr(reqs[j]).None?
    {
      var req := Subscription(subjects[i], Some(queue), ch, i);
      assert req == reqs[i];
      calls := calls + [SubscribeCall(req)];
      assert calls == Subscribes(reqs[..i + 1]);
      var e := broker.subscribeErr(req);
      if e.Some? {
        var drainErr, drainCalls := DrainList(dryList, broker);
        assert FirstFailure(reqs, broker.subscribeErr) == i;
        assert (drainErr, drainCalls) == DrainListSpec(reqs[..i], broker);
        assert broker.subscribeErr(reqs[i]) == e;
        return Failure(SubscribeFailed(subjects[i], e.value, drainErr)), calls + drainCalls;
      }
      dryList := dryList + [req];
      i := i + 1;
    }
    assert reqs[..i] == reqs;
    return Success(Pool(dryList)), calls;
  }

  /** `Subscriber.Subscribe` for whichever strategy is installed. */
  function SubscribeSpec(s: Subscriber, broker: Broker, subject: string, ch: Channel): (Result<Dryer, Error>, seq<Call>)
  {
    match s
    case Regular => SubscribeRegular(broker, subject, ch)
    case Queue(queue) => SubscribeQueue(broker, queue, subject, ch)
    case QueuePool(queue, subjects) => PoolSpec(queue, subjects, broker, ch)
  }

  method Subscribe(s: Subscriber, broker: Broker, subject: string, ch: Channel)
    returns (r: Result<Dryer, Error>, calls: seq<Call>)
    ensures (r, calls) == SubscribeSpec(s, broker, subject, ch)
  {
    match s
    case Regular =>
      var p := SubscribeRegular(broker, subject, ch);
      r, calls := p.0, p.1;
    case Queue(queue) =>
      var p := SubscribeQueue(broker, queue, subject, ch);
      r, calls := p.0, p.1;
    case QueuePool(queue, subjects) =>
      r, calls := SubscribePool(queue, subjects, broker, subject, ch);
  }
}
