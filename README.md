# Retrying sample publisher of ceilometer, in Dafny

This project models `MessagingPublisher` from `ceilometer/publisher/messaging.py`. It is the
base class of ceilometer's RPC and notification publishers. It keeps one mutable list,
`local_queue`, of `(context, topic, meters)` batches. `publish_samples` appends to that list and
then calls `flush`, which hands the batches to the transport's `_send` head first. When the
transport reports a `MessageDeliveryFailure`, the configured policy (`default`, `queue` or
`drop`) decides which batches survive.

Layout, one module per component:

- `wrappers.dfy` — `Wrappers`: an `Option` datatype.
- `options.dfy` — `Options`: how `__init__` resolves its query options. Repeated options resolve
  last-one-wins. Defaults apply when an option is absent. An unknown policy is coerced to
  `default`, and `retry` is derived from the policy.
- `meters.dfy` — `Meters`: the serialized meter record, Python's `str` ordering of
  `counter_name`, and the per-name filter.
- `grouping.dfy` — `Grouping`: `sorted(..., key=counter_name)` (a stable insertion sort) and
  `itertools.groupby`, both proved against `IsNameGrouping`. That predicate says: one group per
  distinct name, names ascending, and each group holds exactly its name's meters in their
  original order. The lemmas also show that this grouping is unique.
- `batches.dfy` — `Batches`: the batches one `publish_samples` call appends.
- `draining.dfy` — `Draining`: `Drain` (what `_process_queue` returns), `Trimmed`
  (`_check_queue_length`) and `FlushSpec` (`flush`) as functions, with the delivery properties
  proved about them.
- `publisher.dfy` — `Publisher.MessagingPublisher`: the class with its `localQueue` field. Its
  methods are proved equal to the functions above. `ProcessQueue` is the `while queue:` loop,
  proved with loop invariants.

External parts become inputs:

- `_send` is an oracle `outcome: nat -> SendOutcome`. It gives the result of the n-th send
  attempt of one drain: `Sent`, `Failed(DeliveryFailure)` or `Failed(OtherError)`.
- The batches that other green threads append to `local_queue` while a drain runs are an explicit
  input, `arrived`.
- The metering topic read from the configuration is a parameter of `PublishSamples`, and so is
  the sample serializer (`utils.meter_message_from_counter` with the metering secret).
- An exception that escapes `flush` is returned as `raised`, an `Option<Failure>`.

Behaviour of the code worth noting:

- Under `default`, a `MessageDeliveryFailure` is re-raised at line 160. This happens after
  line 130 has already emptied `local_queue`, so the reassignment at lines 131-132 never runs.
  The detached batches are lost: the failing one and the unsent ones. Only the batches that
  arrived during the drain remain. The same happens under every policy for an exception that is
  not a `MessageDeliveryFailure`.
- The fan-out groups come out in ascending `counter_name` order, because of the sort at line 112.
- A `max_queue_length` of zero or less disables the bound (line 138).
- After a flush that lets an exception escape, `_check_queue_length` does not run. So under
  `queue` the bound holds only after flushes that return.

## Model

| member | source | states |
|---|---|---|
| `Options.LastValue` | ceilometer/publisher/messaging.py:74-79 | an absent option gives the default; otherwise the result is one of the values given |
| `Options.LastValueIsLastOverride` | ceilometer/publisher/messaging.py:71-79 | taking the last value equals applying every repetition in order, each overriding the one before |
| `Options.LastValueWins` | ceilometer/publisher/messaging.py:71-79 | a value given last wins, whatever was given before it |
| `Options.ResolvePolicy` | ceilometer/publisher/messaging.py:83-88 | a name is kept exactly when it is `default`, `queue` or `drop`; any other name becomes `default` |
| `Options.PolicyNameRoundTrip` | ceilometer/publisher/messaging.py:83-88 | every policy is kept unchanged through its name |
| `Options.RetryFor` | ceilometer/publisher/messaging.py:90 | `retry` is set exactly for `queue` and `drop`, and then it is 1 |
| `Options.Resolve` | ceilometer/publisher/messaging.py:69-90 | each setting is the last value given or its default; `per_meter_topic` is true exactly when that value is non-zero; the policy is coerced; `retry` follows the policy |
| `Options.ResolveDefaults` | ceilometer/publisher/messaging.py:74-79 | with no options: no per-meter topics, policy `default`, bound 1024, no retry |
| `Options.UnknownPolicyCoerced` | ceilometer/publisher/messaging.py:83-90 | an unknown policy given last becomes `default`, and then `retry` is None |
| `Options.KnownPolicyKept` | ceilometer/publisher/messaging.py:83-90 | a known policy given last is kept, and `retry` is 1 unless it is `default` |
| `Publisher.MessagingPublisher.constructor` | ceilometer/publisher/messaging.py:69-90 | the object's settings are `Resolve(options)`, its queue is empty, and `retry` agrees with the policy |
| `Meters.NameBefore` | ceilometer/publisher/messaging.py:112 | Python's `<` on the `counter_name` sort key: a proper prefix comes before the longer name and never after it; the order it defines is specified by `NameBeforeIrreflexive`, `NameBeforeAsymmetric`, `NameBeforeTransitive` and `NameBeforeTotal` |
| `Meters.NameBeforeTotal` | ceilometer/publisher/messaging.py:112 | Python's string order used as the sort key is total (with `NameBeforeIrreflexive`, `NameBeforeAsymmetric`, `NameBeforeTransitive`: a strict total order) |
| `Meters.Filter` | ceilometer/publisher/messaging.py:111-114 | the meters of one name, never more than the input holds; what it keeps is specified by `FilterOnlyKeeps` and `FilterKeeps`, and it is the reference each group is checked against in `IsNameGrouping` |
| `Meters.FilterOnlyKeeps` | ceilometer/publisher/messaging.py:111-114 | a per-name group only holds meters of the input that carry that name |
| `Meters.FilterKeeps` | ceilometer/publisher/messaging.py:111-114 | every meter belongs to the group of its own name |
| `Grouping.InsertByName` | ceilometer/publisher/messaging.py:112 | inserting a meter into a name-sorted sequence adds exactly that one meter; where it goes is specified by `InsertByNameSorted`, `InsertByNamePermutes` and `InsertByNameFilter` |
| `Grouping.SortByName` | ceilometer/publisher/messaging.py:112 | `sorted(..., key=counter_name)` keeps the number of meters; the result is specified by `SortByNameSorted`, `SortByNamePermutes` and `SortByNameStable` |
| `Grouping.SortByNameSorted` | ceilometer/publisher/messaging.py:112 | the sort leaves names in non-decreasing order |
| `Grouping.SortByNamePermutes` | ceilometer/publisher/messaging.py:112 | the sort is a permutation of the meters |
| `Grouping.SortByNameStable` | ceilometer/publisher/messaging.py:112 | the sort is stable: each name's meters keep their original relative order |
| `Grouping.InsertByNameFilter` | ceilometer/publisher/messaging.py:112 | inserting a meter adds it at the front of its own name's meters and leaves the other names' meters alone |
| `Grouping.GroupByName` | ceilometer/publisher/messaging.py:111-113 | `groupby` gives at most one group per meter, and a non-empty input starts with the group of its first meter's name; on sorted input the groups are specified by `GroupByNameSpec` |
| `Grouping.GroupsOf` | ceilometer/publisher/messaging.py:111-113 | the fan-out groups: at most one per meter, and none exactly when there are no meters; specified by `GroupsOfSpec` and `GroupsOfIsTheNameGrouping` |
| `Grouping.GroupByNameSpec` | ceilometer/publisher/messaging.py:111-113 | on name-sorted meters, grouping consecutive equal names gives the name grouping, starting with the first meter's name |
| `Grouping.GroupsOfSpec` | ceilometer/publisher/messaging.py:111-114 | sort then groupby gives one group per distinct name, in ascending name order, each holding exactly that name's meters in their original order |
| `Grouping.NameGroupingUnique` | ceilometer/publisher/messaging.py:111-114 | two name groupings of the same meters are equal |
| `Grouping.GroupsOfIsTheNameGrouping` | ceilometer/publisher/messaging.py:111-114 | the fan-out groups are the one and only name grouping of the meters |
| `Batches.Serialize` | ceilometer/publisher/messaging.py:100-105 | one serialized meter per sample, in sample order |
| `Batches.FanOut` | ceilometer/publisher/messaging.py:111-118 | one batch per group, in group order, at `topic + '.' + name`, holding that group's meters |
| `Batches.BuildBatches` | ceilometer/publisher/messaging.py:107-118 | the batches one call appends: first the base-topic batch holding every meter; nothing else without `per_meter_topic`; with it, one more batch per group and so at most one per meter; fully specified by `BuildBatchesSpec` |
| `Batches.BuildBatchesSpec` | ceilometer/publisher/messaging.py:107-118 | the first appended batch is at the base topic and holds every meter in order; without `per_meter_topic` it is the only one; with it, it is followed by exactly one batch per distinct name, in ascending name order, each at `topic.name` and holding that name's meters in their original order |
| `Batches.FanOutExample` | ceilometer/publisher/messaging.py:107-118 | meters named A, A, B at topic D give batches D (all three), D.A (both A meters, in order) and D.B |
| `Draining.FirstFailure` | ceilometer/publisher/messaging.py:145-149 | the index of the first failing send: every earlier send succeeded, and the send at that index failed unless all of them succeeded |
| `Draining.Trimmed` | ceilometer/publisher/messaging.py:136-140 | the result is a suffix of the queue; a positive bound is never exceeded; exactly the oldest excess is dropped when the queue is longer than a positive bound; otherwise the queue is unchanged |
| `Draining.Drain` | ceilometer/publisher/messaging.py:144-163 | what `_process_queue` returns and sends: the sent batches are a prefix of the queue; only `default` lets a `MessageDeliveryFailure` escape, and any other exception escapes under every policy; only `queue` keeps batches, and what it keeps is the failing batch followed by every unsent one, so that the delivered batches and the kept ones make up the queue |
| `Draining.DrainHeadFirst` | ceilometer/publisher/messaging.py:144-163 | the batches handed to `_send` are a prefix of the queue, in queue order; all but the last were delivered; the last is the first to fail if any failed |
| `Draining.DrainAllSent` | ceilometer/publisher/messaging.py:145-163 | when every send succeeds, nothing is kept and `_send` saw exactly the whole queue, in order |
| `Draining.DrainEmptiesIffAllSent` | ceilometer/publisher/messaging.py:144-163 | under `queue` and `default`, nothing is kept exactly when every send succeeded |
| `Draining.DrainDeliveryFailure` | ceilometer/publisher/messaging.py:149-160 | on the first `MessageDeliveryFailure`, at index k: `_send` saw the first k+1 batches; `queue` keeps the unmodified suffix from k, `drop` keeps nothing, `default` re-raises |
| `Draining.DrainOtherError` | ceilometer/publisher/messaging.py:147-149 | any other exception escapes under every policy |
| `Draining.DrainQueueSuffix` | ceilometer/publisher/messaging.py:151-154 | under `queue`, what is kept is exactly the queue from the first failure on |
| `Draining.DrainQueueConserves` | ceilometer/publisher/messaging.py:149-162 | under `queue`, the delivered batches followed by the kept ones are the whole queue, and every delivered batch's send succeeded |
| `Draining.Reconcile` | ceilometer/publisher/messaging.py:129-134 | the end of `flush`: the sends are the drain's; an exception is reported exactly when the drain raised it, and then only the arrivals remain; otherwise the new queue is no longer than the remainder followed by the arrivals |
| `Draining.FlushSpec` | ceilometer/publisher/messaging.py:129-134 | what `flush` sends is a prefix of the detached queue; only `default` lets a `MessageDeliveryFailure` escape, and then only the arrivals remain; under `drop` a flush that returns leaves only the arrivals |
| `Draining.FlushKeepsArrivals` | ceilometer/publisher/messaging.py:129-132 | the flush only sends a prefix of the detached queue, never a batch that arrived during it; when it returns (and is below a `queue` bound) the new queue is the remainder followed by all arrivals in order; when it raises, only the arrivals remain |
| `Draining.FlushBounded` | ceilometer/publisher/messaging.py:133-140 | under `queue` with a positive bound, a flush that returns leaves at most that many batches: the newest ones, in order, of the remainder followed by the arrivals |
| `Draining.FlushDropDiscards` | ceilometer/publisher/messaging.py:155-158 | under `drop`, a delivery failure discards the failing batch and every later one; only the arrivals remain and nothing is raised |
| `Draining.FlushDefaultLosesWorkingSet` | ceilometer/publisher/messaging.py:129-160 | under `default`, a delivery failure is re-raised and the detached batches are not restored; only the arrivals remain |
| `Draining.FlushQueueConserves` | ceilometer/publisher/messaging.py:129-154 | under `queue` and below the bound, the batches delivered before the first failure, followed by the new queue, are the old queue followed by the arrivals |
| `Draining.FlushAllSent` | ceilometer/publisher/messaging.py:129-163 | under `queue`, a flush with no arrivals whose every send succeeds delivers the whole queue in order, raises nothing and leaves the queue empty |
| `Draining.QueueRecovers` | ceilometer/publisher/messaging.py:122-163 | under `queue` and below the bound, if a flush meets an outage and the next flush delivers every send, then every batch is delivered exactly once, in arrival order, and the queue ends empty |
| `Publisher.MessagingPublisher.PublishSamples` | ceilometer/publisher/messaging.py:92-120 | the queue, the exception and the sends are those of `flush` applied to the old queue followed by `BuildBatches` of the serialized samples; nothing already queued is changed before the flush |
| `Publisher.MessagingPublisher.Flush` | ceilometer/publisher/messaging.py:122-134 | the new queue, the exception and the sends are `FlushSpec` of the old queue and the arrivals |
| `Publisher.MessagingPublisher.CheckQueueLength` | ceilometer/publisher/messaging.py:136-142 | the new queue is `Trimmed(old queue, max_queue_length)` |
| `Publisher.MessagingPublisher.ProcessQueue` | ceilometer/publisher/messaging.py:144-163 | the loop's result and the batches it sent are `Drain(queue, policy, outcome)` |

## Left out

- `RPCPublisher` and `NotifierPublisher` (ceilometer/publisher/messaging.py:170-200) are thin wrappers over oslo.messaging clients. Only the outcome of their `_send` is modelled, as the `outcome` oracle.
- `utils.meter_message_from_counter` and the metering-secret signing (ceilometer/publisher/messaging.py:100-105) are a serializer in a module that is not part of this model. It is a function parameter that yields a `Meter` carrying its `counter_name`.
- `urlparse.parse_qs` and the `int(...)` conversions (ceilometer/publisher/messaging.py:70-79) are library parsing. The constructor takes the values already split per option, with integer options given as numbers. A value that `int` would reject is therefore not modelled.
- Option registration in `cfg.CONF` and all logging (ceilometer/publisher/messaging.py:38-63, 84-87, 116-117, 141-142, 150-157) have no effect on behaviour. They are left out, including the dropped-sample counts that are only logged.
- Concurrency: the eventlet scheduling that lets other green threads run during a send is not modelled. Its only effect modelled is the list `arrived` of batches appended to `local_queue` during the drain. A nested `flush` started by such a thread, which would itself drain those batches, is not modelled.
