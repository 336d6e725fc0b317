/**
 * Resolution of the publisher's URL query options (`MessagingPublisher.__init__`).
 *
 * The query string has already been split into one list of values per option, in the
 * order the values appear; an empty list means the option is absent (the query parser
 * never yields an empty list for an option that is present). Integer-valued options
 * are given as numbers.
 */
module Options {
  import opened Wrappers

  /** The three publishing policies; any other name is coerced to `Default`. */
  datatype Policy = Default | Queue | Drop

  /** The values given for each recognised option, in query order. */
  datatype QueryOptions = QueryOptions(
    perMeterTopic: seq<int>,
    policy: seq<string>,
    maxQueueLength: seq<int>)

  /** The publisher's settings once construction has finished. */
  datatype Settings = Settings(
    perMeterTopic: bool,
    policy: Policy,
    maxQueueLength: int,
    retry: Option<int>)

  const DefaultMaxQueueLength: int := 1024

  /** `options.get(key, [default])[-1]`: the last value given, or the default when absent. */
  function LastValue<T>(values: seq<T>, default: T): (r: T)
    ensures values == [] ==> r == default
    ensures values != [] ==> r in values
  {
    if values == [] then default else values[|values| - 1]
  }

  /**
   * Reference reading of a repeated option: the values are applied one after another,
   * each overriding the setting left by the previous one.
   */
  function ApplyInOrder<T>(values: seq<T>, current: T): T
  {
    if values == [] then current else ApplyInOrder(values[1..], values[0])
  }

  /** Taking the last value is the same as letting every repetition override the previous one. */
  lemma {:induction false} LastValueIsLastOverride<T>(values: seq<T>, default: T)
    ensures LastValue(values, default) == ApplyInOrder(values, default)
  {
    if values != [] {
      LastValueIsLastOverride(values[1..], values[0]);
      if |values| > 1 {
        assert values[1..][|values[1..]| - 1] == values[|values| - 1];
      }
    }
  }

  /** A value appended at the end wins over everything given before it. */
  lemma LastValueWins<T>(earlier: seq<T>, v: T, default: T)
    ensures LastValue(earlier + [v], default) == v
  {
  }

  /** The policy's name as the source spells it. */
  function PolicyName(p: Policy): string
  {
    match p
    case Default => "default"
    case Queue => "queue"
    case Drop => "drop"
  }

  /** Policy coercion: a known name is kept, any other becomes `default`. */
  function ResolvePolicy(name: string): (p: Policy)
    ensures name in {"default", "queue", "drop"} <==> PolicyName(p) == name
    ensures name !in {"default", "queue", "drop"} ==> p == Default
  {
    if name == "queue" then Queue
    else if name == "drop" then Drop
    else Default
  }

  /** Every policy survives a round trip through its name. */
  lemma PolicyNameRoundTrip(p: Policy)
    ensures ResolvePolicy(PolicyName(p)) == p
  {
  }

  /** `retry` is 1 for `queue` and `drop`, and None (the transport default) for `default`. */
  function RetryFor(p: Policy): (r: Option<int>)
    ensures r.Some? <==> p in {Queue, Drop}
    ensures r.Some? ==> r.value == 1
  {
    if p == Queue || p == Drop then Some(1) else None
  }

  /** All settings the constructor derives from the query options. */
  function Resolve(options: QueryOptions): (s: Settings)
    ensures s.perMeterTopic <==> LastValue(options.perMeterTopic, 0) != 0
    ensures s.policy == ResolvePolicy(LastValue(options.policy, "default"))
    ensures s.maxQueueLength == LastValue(options.maxQueueLength, DefaultMaxQueueLength)
    ensures s.retry == RetryFor(s.policy)
  {
    var policy := ResolvePolicy(LastValue(options.policy, "default"));
    Settings(
      LastValue(options.perMeterTopic, 0) != 0,
      policy,
      LastValue(options.maxQueueLength, DefaultMaxQueueLength),
      RetryFor(policy))
  }

  /** With no options at all: no per-meter topics, `default` policy, a bound of 1024, no retry. */
  lemma ResolveDefaults()
    ensures Resolve(QueryOptions([], [], [])) == Settings(false, Default, 1024, None)
  {
  }

  /** An unknown policy name is coerced to `default`, and then no retry count is set. */
  lemma UnknownPolicyCoerced(options: QueryOptions)
    requires LastValue(options.policy, "default") !in {"default", "queue", "drop"}
    ensures Resolve(options).policy == Default && Resolve(options).retry == None
  {
  }

  /** A known policy name given last is kept, and retry is 1 exactly when it is `queue` or `drop`. */
  lemma KnownPolicyKept(options: QueryOptions, p: Policy)
    requires options.policy != [] && options.policy[|options.policy| - 1] == PolicyName(p)
    ensures Resolve(options).policy == p
    ensures Resolve(options).retry == (if p == Default then None else Some(1))
  {
  }
}
