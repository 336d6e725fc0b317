/**
 * `MessagingPublisher`: the object that owns `local_queue` and drives delivery.
 *
 * Only `local_queue` changes after construction. `_send` is the oracle `outcome`; the
 * batches other green threads append to `local_queue` while a drain is in progress are
 * the explicit input `arrived`; the metering topic read from the configuration and the
 * sample serializer are parameters of `PublishSamples`.
 */
module Publisher {
  import opened Wrappers
  import opened Options
  import opened Meters
  import opened Grouping
  import opened Batches
  import opened Draining

  class MessagingPublisher {
    const perMeterTopic: bool
    const policy: Policy
    const maxQueueLength: int
    const retry: Option<int>
    var localQueue: seq<Batch>

    /** `__init__`: resolves the query options and starts with an empty queue. */
    constructor (options: QueryOptions)
      ensures retry == RetryFor(policy)
      ensures Settings(perMeterTopic, policy, maxQueueLength, retry) == Resolve(options)
      ensures localQueue == []
    {
      perMeterTopic := LastValue(options.perMeterTopic, 0) != 0;
      var policyName := LastValue(options.policy, "default");
      maxQueueLength := LastValue(options.maxQueueLength, DefaultMaxQueueLength);
      localQueue := [];
      var resolved := ResolvePolicy(policyName);
      policy := resolved;
      retry := if resolved == Queue || resolved == Drop then Some(1) else None;
    }

    /**
     * `publish_samples`: appends the base batch and, with `per_meter_topic`, one batch
     * per meter name, then flushes.
     */
    method PublishSamples<S>(context: Context, samples: seq<S>, serialize: S -> Meter, meteringTopic: string,
                             outcome: nat -> SendOutcome, arrived: seq<Batch>)
      returns (raised: Option<Failure>, attempted: seq<Batch>)
      modifies this`localQueue
      ensures FlushResult(localQueue, raised, attempted) ==
        FlushSpec(old(localQueue) + BuildBatches(context, meteringTopic, Serialize(samples, serialize), perMeterTopic),
                  arrived, policy, maxQueueLength, outcome)
    {
      var meters := Serialize(samples, serialize);
      localQueue := localQueue + [Batch(context, meteringTopic, meters)];
      if perMeterTopic {
        var groups := GroupsOf(meters);
        for i := 0 to |groups|
          invariant localQueue == old(localQueue) + [Batch(context, meteringTopic, meters)] + FanOut(context, meteringTopic, groups[..i])
        {
          var topicName := meteringTopic + "." + groups[i].name;
          localQueue := localQueue + [Batch(context, topicName, groups[i].meters)];
          FanOutAppend(context, meteringTopic, groups, i);
        }
      }
      EnqueuedIsBuilt(old(localQueue), context, meteringTopic, meters, perMeterTopic);
      ghost var pending := localQueue;
      assert pending == old(localQueue) + BuildBatches(context, meteringTopic, meters, perMeterTopic);
      raised, attempted := Flush(outcome, arrived);
      assert FlushResult(localQueue, raised, attempted) == FlushSpec(pending, arrived, policy, maxQueueLength, outcome);
    }

    /**
     * `flush`: detaches `local_queue`, drains it, and puts what is left in front of the
     * batches that arrived meanwhile; under `queue` the result is then bounded.
     */
    method Flush(outcome: nat -> SendOutcome, arrived: seq<Batch>)
      returns (raised: Option<Failure>, attempted: seq<Batch>)
      modifies this`localQueue
      ensures FlushResult(localQueue, raised, attempted) ==
        FlushSpec(old(localQueue), arrived, policy, maxQueueLength, outcome)
    {
      var queue := localQueue;
      localQueue := [];
      var drained;
      drained, attempted := ProcessQueue(queue, policy, outcome);
      ghost var d := DrainResult(drained, attempted);
      localQueue := localQueue + arrived;
      match drained
      case Raised(f) =>
        raised := Some(f);
        assert FlushResult(localQueue, raised, attempted) == Reconcile(d, arrived, policy, maxQueueLength);
      case Remainder(rest) =>
        raised := None;
        localQueue := rest + localQueue;
        assert localQueue == rest + arrived;
        if policy == Queue {
          CheckQueueLength();
        }
        assert FlushResult(localQueue, raised, attempted) == Reconcile(d, arrived, policy, maxQueueLength);
    }

    /** `_check_queue_length`: drops the oldest batches beyond a positive bound. */
    method CheckQueueLength()
      modifies this`localQueue
      ensures localQueue == Trimmed(old(localQueue), maxQueueLength)
    {
      var queueLength := |localQueue|;
      if queueLength > maxQueueLength > 0 {
        var count := queueLength - maxQueueLength;
        localQueue := localQueue[count..];
      }
    }

    /**
     * `_process_queue`: sends the head and removes it only once its send succeeded;
     * stops at the first failure, which the policy resolves.
     */
    method ProcessQueue(queue: seq<Batch>, policy: Policy, outcome: nat -> SendOutcome)
      returns (drained: Drained, attempted: seq<Batch>)
      ensures DrainResult(drained, attempted) == Drain(queue, policy, outcome)
    {
      var q := queue;
      attempted := [];
      while q != []
        invariant |attempted| <= |queue|
        invariant attempted == queue[..|attempted|] && q == queue[|attempted|..]
        invariant forall i :: 0 <= i < |attempted| ==> outcome(i).Sent?
        decreases |q|
      {
        var sent := outcome(|attempted|);
        attempted := attempted + [q[0]];
        match sent
        case Sent =>
          q := q[1..];
        case Failed(DeliveryFailure) =>
          if policy == Queue {
            return Remainder(q), attempted;
          } else if policy == Drop {
            return Remainder([]), attempted;
          }
          return Raised(DeliveryFailure), attempted;
        case Failed(OtherError) =>
          return Raised(OtherError), attempted;
      }
      return Remainder([]), attempted;
    }
  }

  /** Appending the next group's batch extends the fan-out by that batch. */
  lemma FanOutAppend(context: Context, topic: string, groups: seq<Group>, i: nat)
    requires i < |groups|
    ensures FanOut(context, topic, groups[..i + 1]) ==
            FanOut(context, topic, groups[..i]) + [Batch(context, topic + "." + groups[i].name, groups[i].meters)]
  {
    assert groups[..i + 1] == groups[..i] + [groups[i]];
  }

  /** What the loop of `publish_samples` has appended is `BuildBatches`. */
  lemma EnqueuedIsBuilt(start: seq<Batch>, context: Context, topic: string, meters: seq<Meter>, perMeterTopic: bool)
    ensures start + [Batch(context, topic, meters)] +
              (if perMeterTopic then FanOut(context, topic, GroupsOf(meters)[..|GroupsOf(meters)|]) else []) ==
            start + BuildBatches(context, topic, meters, perMeterTopic)
  {
    var groups := GroupsOf(meters);
    assert groups[..|groups|] == groups;
  }
}
