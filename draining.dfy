/**
 * What `_process_queue`, `_check_queue_length` and `flush` compute, as functions of the
 * queue, the policy and the outcomes of the transport's `_send` calls, with the
 * delivery properties proved about them.
 *
 * The transport is an oracle: `outcome(n)` is what the n-th `_send` call of one drain
 * does (0-based), so any pattern of successes and failures can be described.
 */
module Draining {
  import opened Wrappers
  import opened Options
  import opened Batches

  /** The two kinds of exception `_send` can raise. */
  datatype Failure =
    | DeliveryFailure  // `oslo.messaging.MessageDeliveryFailure`, the only one the policy handles
    | OtherError       // anything else; never caught here

  /** What one `_send` call does. */
  datatype SendOutcome = Sent | Failed(failure: Failure)

  /** How a drain ends: the batches to keep, or an exception escaping it. */
  datatype Drained = Remainder(rest: seq<Batch>) | Raised(failure: Failure)

  /** A drain's end and the batches handed to `_send`, in call order. */
  datatype DrainResult = DrainResult(drained: Drained, attempted: seq<Batch>)

  /** `local_queue` after `flush`, the exception it lets escape, and the batches it tried to send. */
  datatype FlushResult = FlushResult(queue: seq<Batch>, raised: Option<Failure>, attempted: seq<Batch>)

  /** The index of the first failing send among attempts `i .. n-1`, or `n` when all of them succeed. */
  function FirstFailure(outcome: nat -> SendOutcome, n: nat, i: nat): (k: nat)
    requires i <= n
    ensures i <= k <= n
    ensures forall j :: i <= j < k ==> outcome(j).Sent?
    ensures k < n ==> outcome(k).Failed?
    decreases n - i
  {
    if i == n || outcome(i).Failed? then i else FirstFailure(outcome, n, i + 1)
  }

  /**
   * `_process_queue(queue, policy)`: sends head first; on the first failure a
   * `MessageDeliveryFailure` keeps the unsent suffix (queue), keeps nothing (drop) or
   * escapes (default); any other exception escapes under every policy.
   */
  function Drain(queue: seq<Batch>, policy: Policy, outcome: nat -> SendOutcome): (r: DrainResult)
    ensures r.attempted <= queue
    ensures r.drained.Raised? ==> r.drained.failure == OtherError || policy == Default
    ensures policy != Queue && r.drained.Remainder? ==> r.drained.rest == []
    ensures r.drained.Remainder? && r.drained.rest != [] ==>
              r.attempted != [] && r.drained.rest[0] == r.attempted[|r.attempted| - 1] &&
              r.attempted[..|r.attempted| - 1] + r.drained.rest == queue
  {
    var k := FirstFailure(outcome, |queue|, 0);
    if k == |queue| then DrainResult(Remainder([]), queue)
    else
      var drained :=
        match outcome(k).failure
        case OtherError => Raised(OtherError)
        case DeliveryFailure =>
          (match policy
           case Queue => Remainder(queue[k..])
           case Drop => Remainder([])
           case Default => Raised(DeliveryFailure));
      DrainResult(drained, queue[..k + 1])
  }

  /**
   * `_check_queue_length`: keeps the newest `maxQueueLength` batches when there are more
   * than that and the bound is positive; otherwise keeps everything.
   */
  function Trimmed(queue: seq<Batch>, maxQueueLength: int): (r: seq<Batch>)
    ensures maxQueueLength > 0 ==> |r| <= maxQueueLength
    ensures |r| <= |queue| && r == queue[|queue| - |r|..]
    ensures |queue| > maxQueueLength > 0 ==> |r| == maxQueueLength
    ensures !(|queue| > maxQueueLength > 0) ==> r == queue
  {
    if |queue| > maxQueueLength > 0 then queue[|queue| - maxQueueLength..] else queue
  }

  /**
   * `flush`: drains the detached queue; `arrived` are the batches appended to
   * `local_queue` while the drain ran. The remainder goes in front of them and, under
   * `queue`, the result is bounded. An escaping exception skips the reassignment, so only
   * `arrived` is left.
   */
  function FlushSpec(queue: seq<Batch>, arrived: seq<Batch>, policy: Policy, maxQueueLength: int,
                     outcome: nat -> SendOutcome): (r: FlushResult)
    ensures r.attempted <= queue
    ensures r.raised.Some? ==> r.queue == arrived
    ensures r.raised.Some? ==> r.raised.value == OtherError || policy == Default
    ensures policy == Drop && r.raised.None? ==> r.queue == arrived
  {
    Reconcile(Drain(queue, policy, outcome), arrived, policy, maxQueueLength)
  }

  /** The second half of `flush`, once the drain has ended. */
  function Reconcile(d: DrainResult, arrived: seq<Batch>, policy: Policy, maxQueueLength: int): (r: FlushResult)
    ensures r.attempted == d.attempted
    ensures r.raised.Some? <==> d.drained.Raised?
    ensures r.raised.Some? ==> r.queue == arrived && r.raised.value == d.drained.failure
    ensures r.raised.None? ==> |r.queue| <= |d.drained.rest| + |arrived|
  {
    match d.drained
    case Raised(f) => FlushResult(arrived, Some(f), d.attempted)
    case Remainder(rest) =>
      var merged := rest + arrived;
      FlushResult(if policy == Queue then Trimmed(merged, maxQueueLength) else merged, None, d.attempted)
  }

  // ---------------------------------------------------------------------------------
  // Properties of a drain

  /**
   * Sends happen head first: what reaches `_send` is a prefix of the queue, every batch
   * but the last one sent was delivered, and the drain stops at the first failure.
   */
  lemma DrainHeadFirst(queue: seq<Batch>, policy: Policy, outcome: nat -> SendOutcome)
    ensures var d := Drain(queue, policy, outcome);
      |d.attempted| <= |queue| && d.attempted == queue[..|d.attempted|] &&
      (queue != [] ==> d.attempted != []) &&
      (forall i :: 0 <= i < |d.attempted| - 1 ==> outcome(i).Sent?) &&
      (d.attempted != [] && outcome(|d.attempted| - 1).Failed? ==> d.attempted[|d.attempted| - 1] == queue[FirstFailure(outcome, |queue|, 0)])
  {
  }

  /** When every send succeeds nothing is kept, and `_send` saw the whole queue in order. */
  lemma DrainAllSent(queue: seq<Batch>, policy: Policy, outcome: nat -> SendOutcome)
    requires forall i :: 0 <= i < |queue| ==> outcome(i).Sent?
    ensures Drain(queue, policy, outcome) == DrainResult(Remainder([]), queue)
  {
  }

  /**
   * Under `queue` and `default` a drain ends with nothing left exactly when every send
   * succeeded (under `drop` a failure also leaves nothing).
   */
  lemma DrainEmptiesIffAllSent(queue: seq<Batch>, policy: Policy, outcome: nat -> SendOutcome)
    requires policy != Drop
    ensures Drain(queue, policy, outcome).drained == Remainder([]) <==>
            forall i :: 0 <= i < |queue| ==> outcome(i).Sent?
  {
    var k := FirstFailure(outcome, |queue|, 0);
    if k < |queue| {
      assert !outcome(k).Sent?;
    }
  }

  /**
   * The first send to fail, at index `k`, with a `MessageDeliveryFailure` decides what is
   * left: the unmodified suffix from the failing batch (queue), nothing (drop), or the
   * exception (default).
   */
  lemma DrainDeliveryFailure(queue: seq<Batch>, policy: Policy, outcome: nat -> SendOutcome, k: nat)
    requires k < |queue|
    requires forall i :: 0 <= i < k ==> outcome(i).Sent?
    requires outcome(k) == Failed(DeliveryFailure)
    ensures Drain(queue, policy, outcome).attempted == queue[..k + 1]
    ensures policy == Queue ==> Drain(queue, policy, outcome).drained == Remainder(queue[k..])
    ensures policy == Drop ==> Drain(queue, policy, outcome).drained == Remainder([])
    ensures policy == Default ==> Drain(queue, policy, outcome).drained == Raised(DeliveryFailure)
  {
    assert FirstFailure(outcome, |queue|, 0) == k;
  }

  /** Any other exception escapes under every policy. */
  lemma DrainOtherError(queue: seq<Batch>, policy: Policy, outcome: nat -> SendOutcome, k: nat)
    requires k < |queue|
    requires forall i :: 0 <= i < k ==> outcome(i).Sent?
    requires outcome(k) == Failed(OtherError)
    ensures Drain(queue, policy, outcome) == DrainResult(Raised(OtherError), queue[..k + 1])
  {
    assert FirstFailure(outcome, |queue|, 0) == k;
  }

  /**
   * Under `queue` nothing is lost or duplicated: the batches delivered, followed by the
   * remainder, make up the queue.
   */
  lemma DrainQueueConserves(queue: seq<Batch>, outcome: nat -> SendOutcome)
    ensures var d := Drain(queue, Queue, outcome);
      d.drained.Remainder? ==>
        var delivered := queue[..|queue| - |d.drained.rest|];
        delivered + d.drained.rest == queue &&
        forall i :: 0 <= i < |delivered| ==> outcome(i).Sent?
  {
    var k := FirstFailure(outcome, |queue|, 0);
    if k < |queue| {
      assert queue[..k] + queue[k..] == queue;
    }
  }

  // ---------------------------------------------------------------------------------
  // Properties of a flush

  /**
   * Batches appended while the drain ran are never sent by that flush, and end up after
   * what is left of the detached queue, in arrival order and in full (before any bound
   * is applied); an escaping exception leaves only them.
   */
  lemma FlushKeepsArrivals(queue: seq<Batch>, arrived: seq<Batch>, policy: Policy, maxQueueLength: int,
                           outcome: nat -> SendOutcome)
    ensures var f := FlushSpec(queue, arrived, policy, maxQueueLength, outcome);
      f.attempted == queue[..|f.attempted|] &&
      (f.raised.Some? ==> f.queue == arrived) &&
      (f.raised.None? && (policy != Queue || maxQueueLength <= 0 || |queue| + |arrived| <= maxQueueLength) ==>
         var d := Drain(queue, policy, outcome);
         f.queue == d.drained.rest + arrived && f.queue[|f.queue| - |arrived|..] == arrived)
  {
    DrainHeadFirst(queue, policy, outcome);
  }

  /**
   * Under `queue` a positive bound holds after every flush that returns, and only the
   * oldest batches are dropped. (A flush that lets an exception escape skips the bound.)
   */
  lemma FlushBounded(queue: seq<Batch>, arrived: seq<Batch>, maxQueueLength: int, outcome: nat -> SendOutcome)
    requires maxQueueLength > 0
    ensures var f := FlushSpec(queue, arrived, Queue, maxQueueLength, outcome);
      f.raised.None? ==>
        var merged := Drain(queue, Queue, outcome).drained.rest + arrived;
        |f.queue| <= maxQueueLength &&
        f.queue == merged[|merged| - |f.queue|..] &&
        |f.queue| == if |merged| > maxQueueLength then maxQueueLength else |merged|
  {
  }

  /** Under `drop` a delivery failure discards the failing batch and everything after it. */
  lemma FlushDropDiscards(queue: seq<Batch>, arrived: seq<Batch>, maxQueueLength: int,
                          outcome: nat -> SendOutcome, k: nat)
    requires k < |queue|
    requires forall i :: 0 <= i < k ==> outcome(i).Sent?
    requires outcome(k) == Failed(DeliveryFailure)
    ensures FlushSpec(queue, arrived, Drop, maxQueueLength, outcome) == FlushResult(arrived, None, queue[..k + 1])
  {
    DrainDeliveryFailure(queue, Drop, outcome, k);
  }

  /**
   * Under `default` a delivery failure escapes, and the detached batches (the failing one
   * and all unsent ones) are not put back: only the batches that arrived meanwhile remain.
   */
  lemma FlushDefaultLosesWorkingSet(queue: seq<Batch>, arrived: seq<Batch>, maxQueueLength: int,
                                    outcome: nat -> SendOutcome, k: nat)
    requires k < |queue|
    requires forall i :: 0 <= i < k ==> outcome(i).Sent?
    requires outcome(k) == Failed(DeliveryFailure)
    ensures FlushSpec(queue, arrived, Default, maxQueueLength, outcome) ==
            FlushResult(arrived, Some(DeliveryFailure), queue[..k + 1])
  {
    DrainDeliveryFailure(queue, Default, outcome, k);
  }

  /**
   * No loss under `queue` while below the bound: delivered batches followed by the new
   * `local_queue` are the old queue followed by the arrivals.
   */
  lemma FlushQueueConserves(queue: seq<Batch>, arrived: seq<Batch>, maxQueueLength: int,
                            outcome: nat -> SendOutcome)
    requires maxQueueLength <= 0 || |queue| + |arrived| <= maxQueueLength
    ensures var f := FlushSpec(queue, arrived, Queue, maxQueueLength, outcome);
      f.raised.None? ==>
        var k := FirstFailure(outcome, |queue|, 0);
        queue[..k] + f.queue == queue + arrived
  {
    var f := FlushSpec(queue, arrived, Queue, maxQueueLength, outcome);
    var k := FirstFailure(outcome, |queue|, 0);
    if f.raised.None? {
      DrainQueueSuffix(queue, outcome);
      var rest := Drain(queue, Queue, outcome).drained.rest;
      assert rest == queue[k..];
      assert |rest + arrived| <= |queue| + |arrived|;
      assert f.queue == Trimmed(rest + arrived, maxQueueLength);
      assert f.queue == rest + arrived;
      SplitRejoins(queue, k, arrived);
    }
  }

  lemma SplitRejoins(queue: seq<Batch>, k: nat, arrived: seq<Batch>)
    requires k <= |queue|
    ensures queue[..k] + (queue[k..] + arrived) == queue + arrived
  {
    assert queue[..k] + queue[k..] == queue;
  }

  /** Under `queue` a drain that returns keeps exactly the batches from the first failure on. */
  lemma DrainQueueSuffix(queue: seq<Batch>, outcome: nat -> SendOutcome)
    ensures var d := Drain(queue, Queue, outcome);
      d.drained.Remainder? ==> d.drained.rest == queue[FirstFailure(outcome, |queue|, 0)..]
  {
  }

  /**
   * Recovery under `queue`: if one flush meets an outage and the next one delivers every
   * send, then (below the bound) every batch is delivered exactly once and in order.
   */
  lemma {:induction false} QueueRecovers(queue: seq<Batch>, arrived: seq<Batch>, maxQueueLength: int,
                      outage: nat -> SendOutcome, recovery: nat -> SendOutcome)
    requires maxQueueLength <= 0 || |queue| + |arrived| <= maxQueueLength
    requires FlushSpec(queue, arrived, Queue, maxQueueLength, outage).raised.None?
    requires forall i :: recovery(i).Sent?
    ensures var first := FlushSpec(queue, arrived, Queue, maxQueueLength, outage);
      var second := FlushSpec(first.queue, [], Queue, maxQueueLength, recovery);
      second.queue == [] && second.raised.None? &&
      queue[..FirstFailure(outage, |queue|, 0)] + second.attempted == queue + arrived
  {
    var first := FlushSpec(queue, arrived, Queue, maxQueueLength, outage);
    FlushQueueConserves(queue, arrived, maxQueueLength, outage);
    FlushAllSent(first.queue, maxQueueLength, recovery);
  }

  /** A flush with nothing arriving whose every send succeeds delivers and empties the queue. */
  lemma FlushAllSent(queue: seq<Batch>, maxQueueLength: int, outcome: nat -> SendOutcome)
    requires forall i :: outcome(i).Sent?
    ensures FlushSpec(queue, [], Queue, maxQueueLength, outcome) == FlushResult([], None, queue)
  {
    DrainAllSent(queue, Queue, outcome);
    assert Trimmed([], maxQueueLength) == [];
  }
}
