/** Consumer options (options.go). A `ConsumerOption` is a Go closure over
    `*Consumer`; both options defined here read and write only the consumer's
    `Subscriber` field, so an option is modelled as what it does to that field:
    the field's new value and the error the closure returns. */
module Options {
  import opened Wrappers
  import opened Errors
  import opened Subscribers

  type ConsumerOption = Subscriber -> (Subscriber, Option<Error>)

  /** An option never installs a strategy that violates the strategy invariant. */
  ghost predicate PreservesWellFormed(opt: ConsumerOption)
  {
    forall s :: WellFormed(s) ==> WellFormed(opt(s).0)
  }

  /** `WithQueueSubscriber(queue)`: an empty queue name is rejected with
      `ErrInvalidQueueName` and the field is left as it was; otherwise the field
      becomes a queue subscriber for that group and the closure returns nil. */
  function WithQueueSubscriber(queue: string): (opt: ConsumerOption)
    ensures forall s :: opt(s).1.None? <==> queue != ""
    ensures forall s :: queue == "" ==> opt(s) == (s, Some(InvalidQueueName))
    ensures forall s :: queue != "" ==> opt(s).0 == Queue(queue)
    ensures PreservesWellFormed(opt)
  {
    s => if queue == "" then (s, Some(InvalidQueueName)) else (Queue(queue), None)
  }

  /** `WithQueuePoolSubscriber(queue, subjects...)`: the queue name is checked
      first, so an empty name yields `ErrInvalidQueueName` even when the subject
      list is empty too; a named queue with no subjects yields `ErrEmptySubject`;
      both leave the field unchanged. Otherwise the pool is installed with the
      subjects in the order given. */
  function WithQueuePoolSubscriber(queue: string, subjects: seq<string>): (opt: ConsumerOption)
    ensures forall s :: opt(s).1.None? <==> queue != "" && subjects != []
    ensures forall s :: queue == "" ==> opt(s) == (s, Some(InvalidQueueName))
    ensures forall s :: queue != "" && subjects == [] ==> opt(s) == (s, Some(EmptySubject))
    ensures forall s :: opt(s).1.None? ==> opt(s).0 == QueuePool(queue, subjects)
    ensures PreservesWellFormed(opt)
  {
    s =>
      if queue == "" then (s, Some(InvalidQueueName))
      else if |subjects| == 0 then (s, Some(EmptySubject))
      else (QueuePool(queue, subjects), None)
  }
}
