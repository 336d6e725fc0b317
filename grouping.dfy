/**
 * Per-meter fan-out of `publish_samples`: `sorted(meters, key=counter_name)` followed by
 * `itertools.groupby` on the same key. Python's sort is stable; it is modelled here by a
 * stable insertion sort, and `groupby` by the grouping of consecutive equal keys.
 * Both are proved against `IsNameGrouping`, which says what the fan-out must produce.
 */
module Grouping {
  import opened Meters

  /** One `(meter_name, meter_list)` pair yielded by `groupby`. */
  datatype Group = Group(name: string, meters: seq<Meter>)

  /**
   * What the fan-out promises: one group per distinct `counter_name`, in ascending name
   * order, each holding exactly that name's meters in their original relative order.
   */
  ghost predicate IsNameGrouping(meters: seq<Meter>, groups: seq<Group>)
  {
    NamesAscending(groups) && GroupsAreFilters(meters, groups) && NamesCovered(meters, groups)
  }

  /** Group names strictly ascend, so no name has two groups. */
  ghost predicate NamesAscending(groups: seq<Group>)
  {
    forall i, j :: 0 <= i < j < |groups| ==> NameBefore(groups[i].name, groups[j].name)
  }

  /** Each group is non-empty and holds exactly its name's meters, in their original order. */
  ghost predicate GroupsAreFilters(meters: seq<Meter>, groups: seq<Group>)
  {
    forall i :: 0 <= i < |groups| ==> groups[i].meters != [] && groups[i].meters == Filter(meters, groups[i].name)
  }

  /** Every meter's name has a group. */
  ghost predicate NamesCovered(meters: seq<Meter>, groups: seq<Group>)
  {
    forall m :: m in meters ==> exists i :: 0 <= i < |groups| && groups[i].name == m.counterName
  }

  /** Names never decrease from one meter to the next. */
  ghost predicate SortedByName(s: seq<Meter>)
  {
    |s| <= 1 || (!NameBefore(s[1].counterName, s[0].counterName) && SortedByName(s[1..]))
  }

  /** Inserts `m` before the first meter whose name does not come before its own. */
  function InsertByName(m: Meter, sorted: seq<Meter>): (r: seq<Meter>)
    ensures |r| == |sorted| + 1 && m in r
  {
    if sorted == [] || !NameBefore(sorted[0].counterName, m.counterName) then [m] + sorted
    else [sorted[0]] + InsertByName(m, sorted[1..])
  }

  /** `sorted(meters, key=operator.itemgetter('counter_name'))`. */
  function SortByName(ms: seq<Meter>): (r: seq<Meter>)
    ensures |r| == |ms|
  {
    if ms == [] then [] else InsertByName(ms[0], SortByName(ms[1..]))
  }

  /** `groupby(sorted_meters, key=operator.itemgetter('counter_name'))`: runs of equal names. */
  function GroupByName(s: seq<Meter>): (r: seq<Group>)
    ensures |r| <= |s|
    ensures s != [] ==> r != [] && r[0].name == s[0].counterName
  {
    if s == [] then []
    else
      var rest := GroupByName(s[1..]);
      if rest != [] && rest[0].name == s[0].counterName
      then [Group(s[0].counterName, [s[0]] + rest[0].meters)] + rest[1..]
      else [Group(s[0].counterName, [s[0]])] + rest
  }

  /** The groups `publish_samples` fans out to. */
  function GroupsOf(meters: seq<Meter>): (r: seq<Group>)
    ensures |r| <= |meters|
    ensures r == [] <==> meters == []
  {
    GroupByName(SortByName(meters))
  }

  /** Filtering one name out of a sequence headed by `x`. */
  lemma FilterCons(x: Meter, t: seq<Meter>, name: string)
    ensures Filter([x] + t, name) == (if x.counterName == name then [x] else []) + Filter(t, name)
  {
    assert ([x] + t)[0] == x && ([x] + t)[1..] == t;
  }

  /** Insertion only passes over meters of other names, so each name's order is kept. */
  lemma {:induction false} InsertByNameFilter(m: Meter, t: seq<Meter>, name: string)
    ensures Filter(InsertByName(m, t), name) == (if m.counterName == name then [m] else []) + Filter(t, name)
  {
    if t == [] || !NameBefore(t[0].counterName, m.counterName) {
      FilterCons(m, t, name);
    } else {
      var x, rest := t[0], t[1..];
      var inserted := InsertByName(m, rest);
      assert InsertByName(m, t) == [x] + inserted;
      assert [x] + rest == t;
      InsertByNameFilter(m, rest, name);
      FilterCons(x, inserted, name);
      FilterCons(x, rest, name);
      NameBeforeIrreflexive(m.counterName);
      assert x.counterName != m.counterName;
    }
  }

  lemma {:induction false} InsertByNameSorted(m: Meter, t: seq<Meter>)
    requires SortedByName(t)
    ensures SortedByName(InsertByName(m, t))
    ensures InsertByName(m, t)[0] == m || InsertByName(m, t)[0] == t[0]
  {
    if t != [] && NameBefore(t[0].counterName, m.counterName) {
      var r := InsertByName(m, t[1..]);
      InsertByNameSorted(m, t[1..]);
      assert ([t[0]] + r)[1..] == r;
      NameBeforeAsymmetric(t[0].counterName, m.counterName);
    }
  }

  lemma {:induction false} InsertByNamePermutes(m: Meter, t: seq<Meter>)
    ensures multiset(InsertByName(m, t)) == multiset(t) + multiset{m}
  {
    if t != [] && NameBefore(t[0].counterName, m.counterName) {
      InsertByNamePermutes(m, t[1..]);
      assert t == [t[0]] + t[1..];
    }
  }

  /** The sort orders meters by name. */
  lemma {:induction false} SortByNameSorted(ms: seq<Meter>)
    ensures SortedByName(SortByName(ms))
  {
    if ms != [] {
      SortByNameSorted(ms[1..]);
      InsertByNameSorted(ms[0], SortByName(ms[1..]));
    }
  }

  /** The sort is a permutation. */
  lemma {:induction false} SortByNamePermutes(ms: seq<Meter>)
    ensures multiset(SortByName(ms)) == multiset(ms)
  {
    if ms != [] {
      SortByNamePermutes(ms[1..]);
      InsertByNamePermutes(ms[0], SortByName(ms[1..]));
      assert ms == [ms[0]] + ms[1..];
    }
  }

  /** The sort is stable: each name's meters keep their relative order. */
  lemma {:induction false} SortByNameStable(ms: seq<Meter>, name: string)
    ensures Filter(SortByName(ms), name) == Filter(ms, name)
  {
    if ms != [] {
      SortByNameStable(ms[1..], name);
      InsertByNameFilter(ms[0], SortByName(ms[1..]), name);
      FilterCons(ms[0], ms[1..], name);
      assert ms == [ms[0]] + ms[1..];
    }
  }

  /** No meter has the name, so the filter is empty. */
  lemma {:induction false} FilterNone(ms: seq<Meter>, name: string)
    requires forall m :: m in ms ==> m.counterName != name
    ensures Filter(ms, name) == []
  {
    if ms != [] {
      FilterNone(ms[1..], name);
    }
  }

  /** A meter whose name opens the first group joins that group. */
  lemma GroupJoin(x: Meter, t: seq<Meter>, h: seq<Group>)
    requires IsNameGrouping(t, h)
    requires h != [] && h[0].name == x.counterName
    ensures IsNameGrouping([x] + t, [Group(x.counterName, [x] + h[0].meters)] + h[1..])
  {
    var g := [Group(x.counterName, [x] + h[0].meters)] + h[1..];
    assert forall i :: 0 <= i < |g| ==> g[i].name == h[i].name;
    GroupJoinFilters(x, t, h);
    GroupJoinCovers(x, t, h);
  }

  lemma GroupJoinFilters(x: Meter, t: seq<Meter>, h: seq<Group>)
    requires NamesAscending(h) && GroupsAreFilters(t, h)
    requires h != [] && h[0].name == x.counterName
    ensures GroupsAreFilters([x] + t, [Group(x.counterName, [x] + h[0].meters)] + h[1..])
  {
    var g := [Group(x.counterName, [x] + h[0].meters)] + h[1..];
    NameBeforeIrreflexive(x.counterName);
    forall i | 0 <= i < |g|
      ensures g[i].meters != [] && g[i].meters == Filter([x] + t, g[i].name)
    {
      FilterCons(x, t, g[i].name);
      if i > 0 {
        assert g[i] == h[i];
        assert NameBefore(h[0].name, h[i].name);
      }
    }
  }

  lemma GroupJoinCovers(x: Meter, t: seq<Meter>, h: seq<Group>)
    requires NamesCovered(t, h)
    requires h != [] && h[0].name == x.counterName
    ensures NamesCovered([x] + t, [Group(x.counterName, [x] + h[0].meters)] + h[1..])
  {
    var g := [Group(x.counterName, [x] + h[0].meters)] + h[1..];
    forall m | m in [x] + t ensures exists i :: 0 <= i < |g| && g[i].name == m.counterName {
      if m != x {
        assert m in t;
        var i :| 0 <= i < |h| && h[i].name == m.counterName;
        assert g[i].name == m.counterName;
      } else {
        assert g[0].name == m.counterName;
      }
    }
  }

  /** A meter whose name comes before every group's opens a new group in front. */
  lemma GroupOpen(x: Meter, t: seq<Meter>, h: seq<Group>)
    requires IsNameGrouping(t, h)
    requires forall j :: 0 <= j < |h| ==> NameBefore(x.counterName, h[j].name)
    ensures IsNameGrouping([x] + t, [Group(x.counterName, [x])] + h)
  {
    var g := [Group(x.counterName, [x])] + h;
    forall i, j | 0 <= i < j < |g| ensures NameBefore(g[i].name, g[j].name) {
      assert g[j] == h[j - 1];
      if i > 0 {
        assert g[i] == h[i - 1];
      }
    }
    GroupOpenFilters(x, t, h);
    GroupOpenCovers(x, t, h);
  }

  lemma GroupOpenFilters(x: Meter, t: seq<Meter>, h: seq<Group>)
    requires GroupsAreFilters(t, h) && NamesCovered(t, h)
    requires forall j :: 0 <= j < |h| ==> NameBefore(x.counterName, h[j].name)
    ensures GroupsAreFilters([x] + t, [Group(x.counterName, [x])] + h)
  {
    var g := [Group(x.counterName, [x])] + h;
    NameBeforeIrreflexive(x.counterName);
    forall m | m in t ensures m.counterName != x.counterName {
      var i :| 0 <= i < |h| && h[i].name == m.counterName;
    }
    FilterNone(t, x.counterName);
    forall i | 0 <= i < |g|
      ensures g[i].meters != [] && g[i].meters == Filter([x] + t, g[i].name)
    {
      FilterCons(x, t, g[i].name);
      if i > 0 {
        assert g[i] == h[i - 1];
      }
    }
  }

  lemma GroupOpenCovers(x: Meter, t: seq<Meter>, h: seq<Group>)
    requires NamesCovered(t, h)
    ensures NamesCovered([x] + t, [Group(x.counterName, [x])] + h)
  {
    var g := [Group(x.counterName, [x])] + h;
    forall m | m in [x] + t ensures exists i :: 0 <= i < |g| && g[i].name == m.counterName {
      if m != x {
        assert m in t;
        var i :| 0 <= i < |h| && h[i].name == m.counterName;
        assert g[i + 1].name == m.counterName;
      } else {
        assert g[0].name == m.counterName;
      }
    }
  }

  /** On name-sorted input, grouping consecutive equal names yields the name grouping. */
  lemma {:induction false} GroupByNameSpec(s: seq<Meter>)
    requires SortedByName(s)
    ensures IsNameGrouping(s, GroupByName(s))
    ensures s != [] ==> GroupByName(s) != [] && GroupByName(s)[0].name == s[0].counterName
  {
    if s != [] {
      var x, t := s[0], s[1..];
      assert s == [x] + t;
      GroupByNameSpec(t);
      var h := GroupByName(t);
      if h != [] && h[0].name == x.counterName {
        GroupJoin(x, t, h);
      } else {
        if h != [] {
          NameBeforeTotal(x.counterName, h[0].name);
          forall j | 0 < j < |h| ensures NameBefore(x.counterName, h[j].name) {
            NameBeforeTransitive(x.counterName, h[0].name, h[j].name);
          }
        }
        GroupOpen(x, t, h);
      }
    }
  }

  /** The fan-out groups of `publish_samples` are the name grouping of its meters. */
  lemma GroupsOfSpec(meters: seq<Meter>)
    ensures IsNameGrouping(meters, GroupsOf(meters))
  {
    var sorted := SortByName(meters);
    SortByNameSorted(meters);
    GroupByNameSpec(sorted);
    var g := GroupsOf(meters);
    forall i | 0 <= i < |g| ensures g[i].meters != [] && g[i].meters == Filter(meters, g[i].name) {
      SortByNameStable(meters, g[i].name);
    }
    forall m | m in meters ensures exists i :: 0 <= i < |g| && g[i].name == m.counterName {
      FilterKeeps(meters, m);
      SortByNameStable(meters, m.counterName);
      FilterOnlyKeeps(sorted, m.counterName, m);
    }
  }

  // `IsNameGrouping` leaves no freedom: a sequence of meters has exactly one name grouping.

  ghost predicate Ascending(names: seq<string>)
  {
    forall i, j :: 0 <= i < j < |names| ==> NameBefore(names[i], names[j])
  }

  function NamesOf(groups: seq<Group>): (r: seq<string>)
    ensures |r| == |groups| && forall i :: 0 <= i < |r| ==> r[i] == groups[i].name
  {
    if groups == [] then [] else [groups[0].name] + NamesOf(groups[1..])
  }

  /** Two strictly ascending name sequences with the same members are equal. */
  lemma {:induction false} AscendingUnique(a: seq<string>, b: seq<string>)
    requires Ascending(a) && Ascending(b)
    requires forall x :: x in a <==> x in b
    ensures a == b
  {
    assert forall i :: 0 <= i < |a| ==> a[i] in b;
    assert forall i :: 0 <= i < |b| ==> b[i] in a;
    if a != [] && b != [] {
      assert a[0] == b[0] by {
        if NameBefore(a[0], b[0]) {
          NameBeforeAsymmetric(a[0], b[0]);
        }
        NameBeforeIrreflexive(a[0]);
      }
      forall x ensures x in a[1..] <==> x in b[1..] {
        NameBeforeIrreflexive(a[0]);
      }
      AscendingUnique(a[1..], b[1..]);
      assert a == [a[0]] + a[1..] && b == [b[0]] + b[1..];
    }
  }

  /** Every group of a name grouping is named after some meter, and every meter's name has a group. */
  lemma GroupNamesAreMeterNames(ms: seq<Meter>, g: seq<Group>, x: string)
    requires IsNameGrouping(ms, g)
    ensures x in NamesOf(g) <==> exists m :: m in ms && m.counterName == x
  {
    if x in NamesOf(g) {
      var i :| 0 <= i < |g| && g[i].name == x;
      FilterOnlyKeeps(ms, x, g[i].meters[0]);
    }
  }

  lemma NameGroupingUnique(ms: seq<Meter>, g1: seq<Group>, g2: seq<Group>)
    requires IsNameGrouping(ms, g1) && IsNameGrouping(ms, g2)
    ensures g1 == g2
  {
    forall x ensures x in NamesOf(g1) <==> x in NamesOf(g2) {
      GroupNamesAreMeterNames(ms, g1, x);
      GroupNamesAreMeterNames(ms, g2, x);
    }
    AscendingUnique(NamesOf(g1), NamesOf(g2));
    assert forall i :: 0 <= i < |g1| ==> g1[i] == g2[i];
  }

  /** Hence the groups the publisher fans out to are the only correct ones. */
  lemma GroupsOfIsTheNameGrouping(ms: seq<Meter>, g: seq<Group>)
    requires IsNameGrouping(ms, g)
    ensures GroupsOf(ms) == g
  {
    GroupsOfSpec(ms);
    NameGroupingUnique(ms, GroupsOf(ms), g);
  }
}
