/**
 * Serialized meter records and the order Python puts their `counter_name` keys in.
 */
module Meters {
  /** A serialized sample: its `counter_name` and the rest of the message's fields. */
  datatype Meter = Meter(counterName: string, fields: map<string, string>)

  /** Python's `<` on `str`: lexicographic by code point, a proper prefix coming first. */
  predicate NameBefore(a: string, b: string): (r: bool)
    ensures a < b ==> r
    ensures b < a ==> !r
  {
    if |a| == 0 then |b| > 0
    else if |b| == 0 then false
    else if a[0] != b[0] then a[0] < b[0]
    else NameBefore(a[1..], b[1..])
  }

  lemma {:induction false} NameBeforeIrreflexive(a: string)
    ensures !NameBefore(a, a)
  {
    if |a| > 0 {
      NameBeforeIrreflexive(a[1..]);
    }
  }

  lemma {:induction false} NameBeforeAsymmetric(a: string, b: string)
    requires NameBefore(a, b)
    ensures !NameBefore(b, a)
  {
    if |a| > 0 && |b| > 0 && a[0] == b[0] {
      NameBeforeAsymmetric(a[1..], b[1..]);
    }
  }

  lemma {:induction false} NameBeforeTransitive(a: string, b: string, c: string)
    requires NameBefore(a, b) && NameBefore(b, c)
    ensures NameBefore(a, c)
  {
    if |a| > 0 && a[0] == b[0] && b[0] == c[0] {
      NameBeforeTransitive(a[1..], b[1..], c[1..]);
    }
  }

  lemma {:induction false} NameBeforeTotal(a: string, b: string)
    requires a != b
    ensures NameBefore(a, b) || NameBefore(b, a)
  {
    if |a| > 0 && |b| > 0 && a[0] == b[0] {
      assert a == [a[0]] + a[1..] && b == [b[0]] + b[1..];
      NameBeforeTotal(a[1..], b[1..]);
    }
  }

  /** The meters called `name`, in their original relative order. */
  function Filter(ms: seq<Meter>, name: string): (r: seq<Meter>)
    ensures |r| <= |ms|
  {
    if ms == [] then []
    else if ms[0].counterName == name then [ms[0]] + Filter(ms[1..], name)
    else Filter(ms[1..], name)
  }

  /** The filter keeps only meters of the sequence that carry the name. */
  lemma {:induction false} FilterOnlyKeeps(ms: seq<Meter>, name: string, m: Meter)
    requires m in Filter(ms, name)
    ensures m in ms && m.counterName == name
  {
    if m in Filter(ms[1..], name) {
      FilterOnlyKeeps(ms[1..], name, m);
    }
  }

  /** Every meter is kept by the filter for its own name. */
  lemma {:induction false} FilterKeeps(ms: seq<Meter>, m: Meter)
    requires m in ms
    ensures m in Filter(ms, m.counterName)
  {
    if ms[0] != m {
      FilterKeeps(ms[1..], m);
    }
  }
}
