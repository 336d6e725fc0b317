/**
 * Batch construction in `publish_samples`: one batch at the metering topic holding every
 * meter, then, with `per_meter_topic`, one batch per meter name at `topic + '.' + name`.
 */
module Batches {
  import opened Meters
  import opened Grouping

  /** The caller's execution context, an opaque context passed through unchanged. */
  type Context = map<string, string>

  /** One `(context, topic, meters)` entry of `local_queue`. */
  datatype Batch = Batch(context: Context, topic: string, meters: seq<Meter>)

  /** The serialized meters, one per sample, in sample order. */
  function Serialize<S>(samples: seq<S>, serialize: S -> Meter): (r: seq<Meter>)
    ensures |r| == |samples|
    ensures forall i :: 0 <= i < |samples| ==> r[i] == serialize(samples[i])
  {
    seq(|samples|, i requires 0 <= i < |samples| => serialize(samples[i]))
  }

  /** The per-meter batches, one per group, in group order. */
  function FanOut(context: Context, topic: string, groups: seq<Group>): (r: seq<Batch>)
    ensures |r| == |groups|
    ensures forall i :: 0 <= i < |groups| ==>
      r[i] == Batch(context, topic + "." + groups[i].name, groups[i].meters)
  {
    if groups == [] then []
    else [Batch(context, topic + "." + groups[0].name, groups[0].meters)] + FanOut(context, topic, groups[1..])
  }

  /** Everything one `publish_samples` call appends to `local_queue`, in append order. */
  function BuildBatches(context: Context, topic: string, meters: seq<Meter>, perMeterTopic: bool): (r: seq<Batch>)
    ensures |r| >= 1 && r[0] == Batch(context, topic, meters)
    ensures !perMeterTopic ==> |r| == 1
    ensures perMeterTopic ==> |r| == 1 + |GroupsOf(meters)| && |r| <= 1 + |meters|
  {
    [Batch(context, topic, meters)] + (if perMeterTopic then FanOut(context, topic, GroupsOf(meters)) else [])
  }

  /**
   * The first batch is the base-topic batch with every meter in order; without
   * `per_meter_topic` it is the only one; with it, the rest are exactly one batch per
   * group of the (unique) name grouping, at `topic.name`, holding that name's meters.
   */
  lemma BuildBatchesSpec(context: Context, topic: string, meters: seq<Meter>, perMeterTopic: bool, groups: seq<Group>)
    requires IsNameGrouping(meters, groups)
    ensures BuildBatches(context, topic, meters, perMeterTopic)[0] == Batch(context, topic, meters)
    ensures !perMeterTopic ==> |BuildBatches(context, topic, meters, perMeterTopic)| == 1
    ensures perMeterTopic ==>
      |BuildBatches(context, topic, meters, perMeterTopic)| == 1 + |groups| &&
      forall i :: 0 <= i < |groups| ==>
        BuildBatches(context, topic, meters, perMeterTopic)[i + 1] ==
          Batch(context, topic + "." + groups[i].name, Filter(meters, groups[i].name))
  {
    GroupsOfIsTheNameGrouping(meters, groups);
  }

  /** The name grouping of three meters named A, A and B. */
  lemma ExampleGrouping(a1: Meter, a2: Meter, b: Meter)
    requires a1.counterName == "A" && a2.counterName == "A" && b.counterName == "B"
    ensures IsNameGrouping([a1, a2, b], [Group("A", [a1, a2]), Group("B", [b])])
  {
    var g := [Group("A", [a1, a2]), Group("B", [b])];
    assert "A"[0] < "B"[0];
    assert NamesAscending(g);
    ExampleFilters(a1, a2, b);
    forall m | m in [a1, a2, b] ensures exists i :: 0 <= i < |g| && g[i].name == m.counterName {
      assert g[if m == b then 1 else 0].name == m.counterName;
    }
  }

  lemma ExampleFilters(a1: Meter, a2: Meter, b: Meter)
    requires a1.counterName == "A" && a2.counterName == "A" && b.counterName == "B"
    ensures Filter([a1, a2, b], "A") == [a1, a2] && Filter([a1, a2, b], "B") == [b]
  {
    assert "A" != "B";
    assert [b] == [b] + [] && [a2, b] == [a2] + [b] && [a1, a2, b] == [a1] + [a2, b];
    FilterCons(b, [], "A");
    FilterCons(b, [], "B");
    FilterCons(a2, [b], "A");
    FilterCons(a2, [b], "B");
    FilterCons(a1, [a2, b], "A");
    FilterCons(a1, [a2, b], "B");
  }

  /** Three meters named A, A, B published at topic D with per-meter topics give D, D.A and D.B. */
  lemma FanOutExample(context: Context, a1: Meter, a2: Meter, b: Meter)
    requires a1.counterName == "A" && a2.counterName == "A" && b.counterName == "B"
    ensures BuildBatches(context, "D", [a1, a2, b], true) ==
      [Batch(context, "D", [a1, a2, b]), Batch(context, "D.A", [a1, a2]), Batch(context, "D.B", [b])]
  {
    var g := [Group("A", [a1, a2]), Group("B", [b])];
    ExampleGrouping(a1, a2, b);
    GroupsOfIsTheNameGrouping([a1, a2, b], g);
    assert "D" + "." + "A" == "D.A" && "D" + "." + "B" == "D.B";
    var f := FanOut(context, "D", g);
    assert |f| == 2 && f[0] == Batch(context, "D.A", [a1, a2]) && f[1] == Batch(context, "D.B", [b]);
  }
}
