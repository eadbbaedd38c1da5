/**
 Aggregating metrics over endpoints and instances, with a history bucket for instances that are gone.
 A failing lookup in the source (a KeyError) is None.
 */
module Metrics {
  import opened Prelude

  datatype MetricType = Gauge | Counter | Histogram | Summary | Untyped

  datatype Sample = Sample(series: string, value: real)

  /** The source's two parallel lists of labels and values are one list of samples. */
  datatype Metric = Metric(name: string, help: string, kind: MetricType, samples: seq<Sample>)

  /** The one metric that is averaged. */
  const MEAN: string := "vllm:kv_cache_usage_perc"

  // ---------------------------------------------------------------------------------------------
  // What a list of metrics says about one name and series
  // (a series is what the source calls a label: the text in front of the value)
  // ---------------------------------------------------------------------------------------------

  /** The total of one series, and whether it occurs at all. */
  datatype Tally = Tally(total: real, present: bool)

  const NOTHING := Tally(0.0, false)

  function Join(a: Tally, b: Tally): Tally {
    Tally(a.total + b.total, a.present || b.present)
  }

  lemma JoinLaws(a: Tally, b: Tally, c: Tally)
    ensures Join(a, Join(b, c)) == Join(Join(a, b), c)
    ensures Join(a, b) == Join(b, a)
    ensures Join(a, NOTHING) == a && Join(NOTHING, a) == a
  {
  }

  function OfSample(s: Sample, series: string): Tally {
    if s.series == series then Tally(s.value, true) else NOTHING
  }

  function OfSamples(xs: seq<Sample>, series: string): Tally {
    if xs == [] then NOTHING else Join(OfSample(xs[0], series), OfSamples(xs[1..], series))
  }

  function OfMetric(m: Metric, name: string, series: string): Tally {
    if m.name == name then OfSamples(m.samples, series) else NOTHING
  }

  function OfMetrics(ms: seq<Metric>, name: string, series: string): Tally {
    if ms == [] then NOTHING else Join(OfMetric(ms[0], name, series), OfMetrics(ms[1..], name, series))
  }

  /** The flat sum over all lists. */
  function OfLists(lists: seq<seq<Metric>>, name: string, series: string): Tally {
    if lists == [] then NOTHING else Join(OfMetrics(lists[0], name, series), OfLists(lists[1..], name, series))
  }

  lemma {:induction false} OfSamplesAppend(a: seq<Sample>, b: seq<Sample>, series: string)
    ensures OfSamples(a + b, series) == Join(OfSamples(a, series), OfSamples(b, series))
    decreases |a|
  {
    if a == [] {
      assert a + b == b;
    } else {
      assert (a + b)[1..] == a[1..] + b;
      OfSamplesAppend(a[1..], b, series);
      JoinLaws(OfSample(a[0], series), OfSamples(a[1..], series), OfSamples(b, series));
    }
  }

  lemma OfSamplesSnoc(a: seq<Sample>, s: Sample, series: string)
    ensures OfSamples(a + [s], series) == Join(OfSamples(a, series), OfSample(s, series))
  {
    OfSamplesAppend(a, [s], series);
    OfSamplesOne(s, series);
  }

  lemma OfSamplesOne(s: Sample, series: string)
    ensures OfSamples([s], series) == OfSample(s, series)
  {
    assert [s][1..] == [];
    JoinLaws(OfSample(s, series), NOTHING, NOTHING);
  }

  lemma OfMetricsSnoc(a: seq<Metric>, m: Metric, name: string, series: string)
    ensures OfMetrics(a + [m], name, series) == Join(OfMetrics(a, name, series), OfMetric(m, name, series))
  {
    OfMetricsAppend(a, [m], name, series);
    OfMetricsOne(m, name, series);
  }

  lemma OfMetricsOne(m: Metric, name: string, series: string)
    ensures OfMetrics([m], name, series) == OfMetric(m, name, series)
  {
    assert [m][1..] == [];
    JoinLaws(OfMetric(m, name, series), NOTHING, NOTHING);
  }

  lemma {:induction false} OfMetricsAppend(a: seq<Metric>, b: seq<Metric>, name: string, series: string)
    ensures OfMetrics(a + b, name, series) == Join(OfMetrics(a, name, series), OfMetrics(b, name, series))
    decreases |a|
  {
    if a == [] {
      assert a + b == b;
    } else {
      assert (a + b)[1..] == a[1..] + b;
      OfMetricsAppend(a[1..], b, name, series);
      JoinLaws(OfMetric(a[0], name, series), OfMetrics(a[1..], name, series), OfMetrics(b, name, series));
    }
  }

  lemma {:induction false} OfListsAppend(a: seq<seq<Metric>>, b: seq<seq<Metric>>, name: string, series: string)
    ensures OfLists(a + b, name, series) == Join(OfLists(a, name, series), OfLists(b, name, series))
    decreases |a|
  {
    if a == [] {
      assert a + b == b;
    } else {
      assert (a + b)[1..] == a[1..] + b;
      OfListsAppend(a[1..], b, name, series);
      JoinLaws(OfMetrics(a[0], name, series), OfLists(a[1..], name, series), OfLists(b, name, series));
    }
  }

  // ---------------------------------------------------------------------------------------------
  // Summing labels
  // ---------------------------------------------------------------------------------------------

  /** One step of the dictionary that sums: labels keep the place where they were first seen. */
  function Add(sums: seq<Sample>, s: Sample): seq<Sample> {
    if sums == [] then [s]
    else if sums[0].series == s.series then [sums[0].(value := sums[0].value + s.value)] + sums[1..]
    else [sums[0]] + Add(sums[1..], s)
  }

  function Sums(xs: seq<Sample>): seq<Sample> {
    if xs == [] then [] else Add(Sums(xs[..|xs| - 1]), xs[|xs| - 1])
  }

  function SamplesOf(ms: seq<Metric>): seq<Sample> {
    if ms == [] then [] else SamplesOf(ms[..|ms| - 1]) + ms[|ms| - 1].samples
  }

  predicate DistinctLabels(xs: seq<Sample>) {
    forall i, j | 0 <= i < j < |xs| :: xs[i].series != xs[j].series
  }

  lemma {:induction false} AddTallies(sums: seq<Sample>, s: Sample, series: string)
    ensures OfSamples(Add(sums, s), series) == Join(OfSamples(sums, series), OfSample(s, series))
    decreases |sums|
  {
    if sums == [] {
      JoinLaws(OfSample(s, series), NOTHING, NOTHING);
    } else if sums[0].series == s.series {
      assert Add(sums, s)[1..] == sums[1..];
      JoinLaws(OfSample(sums[0], series), OfSamples(sums[1..], series), OfSample(s, series));
      JoinLaws(OfSample(sums[0], series), OfSample(s, series), OfSamples(sums[1..], series));
      JoinLaws(OfSamples(sums[1..], series), OfSample(s, series), NOTHING);
    } else {
      assert Add(sums, s)[1..] == Add(sums[1..], s);
      AddTallies(sums[1..], s, series);
      JoinLaws(OfSample(sums[0], series), OfSamples(sums[1..], series), OfSample(s, series));
    }
  }

  lemma {:induction false} AddKeepsDistinct(sums: seq<Sample>, s: Sample)
    requires DistinctLabels(sums)
    ensures DistinctLabels(Add(sums, s))
    ensures forall i | 0 <= i < |Add(sums, s)| :: Add(sums, s)[i].series == s.series || exists j | 0 <= j < |sums| :: sums[j].series == Add(sums, s)[i].series
    decreases |sums|
  {
    if sums != [] && sums[0].series != s.series {
      AddKeepsDistinct(sums[1..], s);
    }
  }

  /** Every label occurs with the sum of its values. */
  lemma {:induction false} SumsAreTotals(xs: seq<Sample>, series: string)
    ensures OfSamples(Sums(xs), series) == OfSamples(xs, series)
    decreases |xs|
  {
    if xs != [] {
      var n := |xs| - 1;
      SumsAreTotals(xs[..n], series);
      SumsGrow(xs[..n], xs[n], series);
      assert xs[..n] + [xs[n]] == xs;
    }
  }

  lemma SumsGrow(xs: seq<Sample>, s: Sample, series: string)
    requires OfSamples(Sums(xs), series) == OfSamples(xs, series)
    ensures OfSamples(Add(Sums(xs), s), series) == OfSamples(xs + [s], series)
  {
    AddTallies(Sums(xs), s, series);
    OfSamplesSnoc(xs, s, series);
  }

  /** And every label occurs once. */
  lemma {:induction false} SumsAreDistinct(xs: seq<Sample>)
    ensures DistinctLabels(Sums(xs))
    decreases |xs|
  {
    if xs != [] {
      SumsAreDistinct(xs[..|xs| - 1]);
      AddKeepsDistinct(Sums(xs[..|xs| - 1]), xs[|xs| - 1]);
    }
  }

  lemma SumsNext(before: seq<Sample>, xs: seq<Sample>, j: nat)
    requires j < |xs|
    ensures Sums(before + xs[..j + 1]) == Add(Sums(before + xs[..j]), xs[j])
  {
    assert (before + xs[..j + 1])[..|before| + j] == before + xs[..j];
  }

  lemma SamplesNext(ms: seq<Metric>, i: nat)
    requires i < |ms|
    ensures SamplesOf(ms[..i + 1]) == SamplesOf(ms[..i]) + ms[i].samples
  {
    assert ms[..i + 1][..i] == ms[..i];
  }

  method AggregateLabelsBySum(ms: seq<Metric>) returns (sums: seq<Sample>)
    ensures sums == Sums(SamplesOf(ms))
  {
    sums := [];
    for i := 0 to |ms|
      invariant sums == Sums(SamplesOf(ms[..i]))
    {
      var xs := ms[i].samples;
      ghost var before := SamplesOf(ms[..i]);
      assert before + xs[..0] == before;
      for j := 0 to |xs|
        invariant sums == Sums(before + xs[..j])
      {
        SumsNext(before, xs, j);
        sums := Add(sums, xs[j]);
      }
      assert xs[..|xs|] == xs;
      SamplesNext(ms, i);
    }
    assert ms[..|ms|] == ms;
  }

  /** The mean divides by the number of metrics, not of metrics with the series. */
  function Means(ms: seq<Metric>): seq<Sample>
    requires ms != []
  {
    var sums := Sums(SamplesOf(ms));
    seq(|sums|, i requires 0 <= i < |sums| => sums[i].(value := sums[i].value / |ms| as real))
  }

  method AggregateLabelsByMean(ms: seq<Metric>) returns (means: seq<Sample>)
    requires ms != []
    ensures means == Means(ms)
  {
    means := AggregateLabelsBySum(ms);
    ghost var sums := means;
    for i := 0 to |means|
      invariant |means| == |sums|
      invariant forall k | 0 <= k < |sums| :: means[k] == if k < i then sums[k].(value := sums[k].value / |ms| as real) else sums[k]
    {
      means := means[i := means[i].(value := means[i].value / |ms| as real)];
    }
  }

  // ---------------------------------------------------------------------------------------------
  // One name
  // ---------------------------------------------------------------------------------------------

  function AggregateOne(ms: seq<Metric>): Metric
    requires ms != []
  {
    Metric(ms[0].name, ms[0].help, ms[0].kind, if ms[0].name == MEAN then Means(ms) else Sums(SamplesOf(ms)))
  }

  method AggregateMetricCommon(ms: seq<Metric>) returns (m: Metric)
    requires ms != []
    ensures m == AggregateOne(ms)
  {
    var samples;
    if ms[0].name == MEAN {
      samples := AggregateLabelsByMean(ms);
    } else {
      samples := AggregateLabelsBySum(ms);
    }
    m := Metric(ms[0].name, ms[0].help, ms[0].kind, samples);
  }

  /** The metrics with a name, in order. */
  function Named(ms: seq<Metric>, name: string): seq<Metric> {
    if ms == [] then []
    else
      var n := |ms| - 1;
      Named(ms[..n], name) + if ms[n].name == name then [ms[n]] else []
  }

  lemma {:induction false} NamedHasName(ms: seq<Metric>, name: string)
    ensures forall i | 0 <= i < |Named(ms, name)| :: Named(ms, name)[i].name == name
    ensures Named(ms, name) != [] <==> exists i :: 0 <= i < |ms| && ms[i].name == name
    decreases |ms|
  {
    if ms != [] {
      var n := |ms| - 1;
      NamedHasName(ms[..n], name);
      assert forall i | 0 <= i < n :: ms[..n][i] == ms[i];
    }
  }

  lemma {:induction false} NamedTally(ms: seq<Metric>, name: string, series: string)
    ensures OfSamples(SamplesOf(Named(ms, name)), series) == OfMetrics(ms, name, series)
    decreases |ms|
  {
    if ms != [] {
      var n := |ms| - 1;
      var before := Named(ms[..n], name);
      NamedTally(ms[..n], name, series);
      assert ms == ms[..n] + [ms[n]];
      OfMetricsSnoc(ms[..n], ms[n], name, series);
      if ms[n].name == name {
        assert (before + [ms[n]])[..|before|] == before;
        OfSamplesAppend(SamplesOf(before), ms[n].samples, series);
      } else {
        assert Named(ms, name) == before;
        JoinLaws(OfMetrics(ms[..n], name, series), NOTHING, NOTHING);
      }
    }
  }

  // ---------------------------------------------------------------------------------------------
  // Many lists
  // ---------------------------------------------------------------------------------------------

  /** The first list of maximal length. */
  function Longest(lists: seq<seq<Metric>>): (k: nat)
    requires lists != []
    ensures k < |lists|
    ensures forall j | 0 <= j < |lists| :: |lists[j]| <= |lists[k]|
    ensures forall j | 0 <= j < k :: |lists[j]| < |lists[k]|
  {
    var n := |lists| - 1;
    if n == 0 then 0
    else
      var k := Longest(lists[..n]);
      assert forall j | 0 <= j < n :: lists[..n][j] == lists[j];
      if |lists[n]| > |lists[k]| then n else k
  }

  /** The names of a list in the order they are first seen. */
  function Names(ms: seq<Metric>): (names: seq<string>)
    ensures forall i, j | 0 <= i < j < |names| :: names[i] != names[j]
    ensures forall i | 0 <= i < |ms| :: ms[i].name in names
    ensures |names| <= |ms|
  {
    if ms == [] then []
    else
      var n := |ms| - 1;
      var before := Names(ms[..n]);
      assert forall i | 0 <= i < n :: ms[..n][i] == ms[i];
      if ms[n].name in before then before else before + [ms[n].name]
  }

  lemma {:induction false} NamesComeFrom(ms: seq<Metric>)
    ensures forall x :: x in Names(ms) ==> x in NameSet(ms)
    ensures forall x :: x in NameSet(ms) ==> x in Names(ms)
    decreases |ms|
  {
    if ms != [] {
      var n := |ms| - 1;
      NamesComeFrom(ms[..n]);
      assert forall i | 0 <= i < n :: ms[..n][i] == ms[i];
      assert NameSet(ms) == NameSet(ms[..n]) + {ms[n].name};
    }
  }

  function Flat(lists: seq<seq<Metric>>): seq<Metric> {
    if lists == [] then [] else Flat(lists[..|lists| - 1]) + lists[|lists| - 1]
  }

  predicate Covered(ms: seq<Metric>, names: seq<string>) {
    forall i | 0 <= i < |ms| :: ms[i].name in names
  }

  /** One aggregated metric per name; a name nobody has is left out, which does not happen. */
  function Build(names: seq<string>, ms: seq<Metric>): seq<Metric> {
    if names == [] then []
    else
      var n := |names| - 1;
      Build(names[..n], ms) + if Named(ms, names[n]) == [] then [] else [AggregateOne(Named(ms, names[n]))]
  }

  /** The names come from the longest list; a metric of any other name makes the lookup fail. */
  function Aggregate(lists: seq<seq<Metric>>): Option<seq<Metric>>
    requires lists != []
  {
    var names := Names(lists[Longest(lists)]);
    if Covered(Flat(lists), names) then Some(Build(names, Flat(lists))) else None
  }

  lemma {:induction false} FlatHasAll(lists: seq<seq<Metric>>, k: nat, i: nat)
    requires k < |lists| && i < |lists[k]|
    ensures lists[k][i] in Flat(lists)
    decreases |lists|
  {
    var n := |lists| - 1;
    if k < n {
      FlatHasAll(lists[..n], k, i);
    }
  }

  ghost predicate Groups(groups: map<string, seq<Metric>>, names: seq<string>, ms: seq<Metric>) {
    && (forall x :: x in groups <==> x in names)
    && (forall x :: x in groups ==> groups[x] == Named(ms, x))
    && Covered(ms, names)
  }

  lemma GroupsStep(groups: map<string, seq<Metric>>, names: seq<string>, ms: seq<Metric>, m: Metric)
    requires Groups(groups, names, ms) && m.name in names
    ensures Groups(groups[m.name := groups[m.name] + [m]], names, ms + [m])
  {
    var after := groups[m.name := groups[m.name] + [m]];
    forall x | x in after ensures after[x] == Named(ms + [m], x) {
      NamedSnoc(ms, m, x);
    }
    forall i | 0 <= i < |ms + [m]| ensures (ms + [m])[i].name in names {
      if i < |ms| { assert (ms + [m])[i] == ms[i]; }
    }
  }

  lemma NamedSnoc(ms: seq<Metric>, m: Metric, name: string)
    ensures Named(ms + [m], name) == if m.name == name then Named(ms, name) + [m] else Named(ms, name)
  {
    assert (ms + [m])[..|ms|] == ms;
  }

  method AggregateMetricsCommon(lists: seq<seq<Metric>>) returns (r: Option<seq<Metric>>)
    requires lists != []
    ensures r == Aggregate(lists)
  {
    var k := FindLongest(lists);
    var names, groups := EmptyGroups(lists[k]);
    var ok;
    ok, groups := GroupLists(groups, names, lists);
    if !ok {
      return None;
    }
    var result := AggregateGroups(groups, names, Flat(lists));
    r := Some(result);
  }

  lemma CoveredConcat(a: seq<Metric>, b: seq<Metric>, names: seq<string>)
    ensures Covered(a + b, names) <==> Covered(a, names) && Covered(b, names)
  {
    assert forall i | 0 <= i < |a| :: (a + b)[i] == a[i];
    assert forall i | 0 <= i < |b| :: (a + b)[|a| + i] == b[i];
  }

  lemma {:induction false} CoveredPrefix(lists: seq<seq<Metric>>, n: nat, names: seq<string>)
    requires n <= |lists| && Covered(Flat(lists), names)
    ensures Covered(Flat(lists[..n]), names)
    decreases |lists| - n
  {
    if n < |lists| {
      CoveredPrefix(lists, n + 1, names);
      assert lists[..n + 1][..n] == lists[..n];
      CoveredConcat(Flat(lists[..n]), lists[n], names);
    } else {
      assert lists[..n] == lists;
    }
  }

  method GroupLists(start: map<string, seq<Metric>>, ghost names: seq<string>, lists: seq<seq<Metric>>)
    returns (ok: bool, groups: map<string, seq<Metric>>)
    requires Groups(start, names, [])
    ensures ok <==> Covered(Flat(lists), names)
    ensures ok ==> Groups(groups, names, Flat(lists))
  {
    groups := start;
    for i := 0 to |lists|
      invariant Groups(groups, names, Flat(lists[..i]))
    {
      ok, groups := GroupList(groups, names, Flat(lists[..i]), lists[i]);
      CoveredConcat(Flat(lists[..i]), lists[i], names);
      assert lists[..i + 1][..i] == lists[..i];
      if !ok {
        if Covered(Flat(lists), names) { CoveredPrefix(lists, i + 1, names); }
        return;
      }
    }
    assert lists[..|lists|] == lists;
    ok := true;
  }

  /** The inner loop of the grouping: one list is added, or a lookup fails. */
  method GroupList(start: map<string, seq<Metric>>, ghost names: seq<string>, ghost before: seq<Metric>, ms: seq<Metric>)
    returns (ok: bool, groups: map<string, seq<Metric>>)
    requires Groups(start, names, before)
    ensures ok <==> Covered(ms, names)
    ensures ok ==> Groups(groups, names, before + ms)
  {
    groups := start;
    assert before + ms[..0] == before;
    for j := 0 to |ms|
      invariant Groups(groups, names, before + ms[..j])
      invariant Covered(ms[..j], names)
    {
      if ms[j].name !in groups {
        return false, groups;
      }
      GroupsStep(groups, names, before + ms[..j], ms[j]);
      groups := groups[ms[j].name := groups[ms[j].name] + [ms[j]]];
      assert before + ms[..j + 1] == before + ms[..j] + [ms[j]];
    }
    assert ms[..|ms|] == ms;
    ok := true;
  }

  method AggregateGroups(groups: map<string, seq<Metric>>, names: seq<string>, ghost ms: seq<Metric>) returns (result: seq<Metric>)
    requires Groups(groups, names, ms)
    ensures result == Build(names, ms)
  {
    result := [];
    for i := 0 to |names|
      invariant result == Build(names[..i], ms)
    {
      assert names[..i + 1][..i] == names[..i];
      if groups[names[i]] != [] {
        var m := AggregateMetricCommon(groups[names[i]]);
        result := result + [m];
      }
    }
    assert names[..|names|] == names;
  }

  method FindLongest(lists: seq<seq<Metric>>) returns (k: nat)
    requires lists != []
    ensures k == Longest(lists)
  {
    k := 0;
    var length := |lists[0]|;
    for i := 0 to |lists|
      invariant k < |lists| && length == |lists[k]|
      invariant forall j | 0 <= j < i :: |lists[j]| <= length
      invariant forall j | 0 <= j < k :: |lists[j]| < length
    {
      if |lists[i]| > length {
        k := i;
        length := |lists[i]|;
      }
    }
  }

  method EmptyGroups(ms: seq<Metric>) returns (names: seq<string>, groups: map<string, seq<Metric>>)
    ensures names == Names(ms)
    ensures (forall x :: x in groups <==> x in names) && forall x :: x in groups ==> groups[x] == []
  {
    names, groups := [], map[];
    for i := 0 to |ms|
      invariant names == Names(ms[..i])
      invariant (forall x :: x in groups <==> x in names) && forall x :: x in groups ==> groups[x] == []
    {
      if ms[i].name !in groups {
        names := names + [ms[i].name];
      }
      groups := groups[ms[i].name := []];
      assert ms[..i + 1][..i] == ms[..i];
    }
    assert ms[..|ms|] == ms;
  }

  // ---------------------------------------------------------------------------------------------
  // Conservation
  // ---------------------------------------------------------------------------------------------

  lemma {:induction false} FlatTally(lists: seq<seq<Metric>>, name: string, series: string)
    ensures OfMetrics(Flat(lists), name, series) == OfLists(lists, name, series)
    decreases |lists|
  {
    if lists != [] {
      var n := |lists| - 1;
      FlatTally(lists[..n], name, series);
      FlatGrows(lists[..n], lists[n], name, series);
      assert lists[..n] + [lists[n]] == lists;
    }
  }

  lemma FlatGrows(lists: seq<seq<Metric>>, last: seq<Metric>, name: string, series: string)
    requires OfMetrics(Flat(lists), name, series) == OfLists(lists, name, series)
    ensures OfMetrics(Flat(lists) + last, name, series) == OfLists(lists + [last], name, series)
  {
    OfMetricsAppend(Flat(lists), last, name, series);
    OfListsSnoc(lists, last, name, series);
  }

  lemma OfListsOne(last: seq<Metric>, name: string, series: string)
    ensures OfLists([last], name, series) == OfMetrics(last, name, series)
  {
    assert [last][1..] == [];
    JoinLaws(OfMetrics(last, name, series), NOTHING, NOTHING);
  }

  lemma OfListsSnoc(lists: seq<seq<Metric>>, last: seq<Metric>, name: string, series: string)
    ensures OfLists(lists + [last], name, series) == Join(OfLists(lists, name, series), OfMetrics(last, name, series))
  {
    OfListsAppend(lists, [last], name, series);
    OfListsOne(last, name, series);
  }

  lemma {:induction false} AbsentTally(ms: seq<Metric>, name: string, series: string)
    requires forall i | 0 <= i < |ms| :: ms[i].name != name
    ensures OfMetrics(ms, name, series) == NOTHING
    decreases |ms|
  {
    if ms != [] {
      AbsentTally(ms[1..], name, series);
      JoinLaws(NOTHING, NOTHING, NOTHING);
    }
  }

  lemma OneTally(ms: seq<Metric>, name: string, series: string)
    requires Named(ms, name) != [] && name != MEAN
    ensures OfMetric(AggregateOne(Named(ms, name)), name, series) == OfMetrics(ms, name, series)
  {
    NamedHasName(ms, name);
    NamedTally(ms, name, series);
    SumsAreTotals(SamplesOf(Named(ms, name)), series);
  }

  /** The metric built for a name, if anybody has the name. */
  function Built(ms: seq<Metric>, name: string, series: string): Tally {
    if Named(ms, name) == [] then NOTHING else OfSamples(AggregateOne(Named(ms, name)).samples, series)
  }

  lemma BuildLast(names: seq<string>, ms: seq<Metric>, name: string, series: string)
    requires names != []
    ensures OfMetrics(Build(names, ms), name, series) ==
            Join(OfMetrics(Build(names[..|names| - 1], ms), name, series),
                 if names[|names| - 1] == name then Built(ms, name, series) else NOTHING)
  {
    var n := |names| - 1;
    var before := Build(names[..n], ms);
    BuiltIsLast(ms, names[n], name, series);
    if Named(ms, names[n]) == [] {
      assert Build(names, ms) == before;
      JoinLaws(OfMetrics(before, name, series), NOTHING, NOTHING);
    } else {
      OfMetricsSnoc(before, AggregateOne(Named(ms, names[n])), name, series);
    }
  }

  lemma BuiltIsLast(ms: seq<Metric>, last: string, name: string, series: string)
    ensures (if last == name then Built(ms, name, series) else NOTHING) ==
            if Named(ms, last) == [] then NOTHING else OfMetric(AggregateOne(Named(ms, last)), name, series)
  {
    NamedHasName(ms, last);
  }

  /** The aggregated metrics carry each of their names once. */
  lemma {:induction false} BuildPicks(names: seq<string>, ms: seq<Metric>, name: string, series: string)
    requires forall i, j | 0 <= i < j < |names| :: names[i] != names[j]
    ensures OfMetrics(Build(names, ms), name, series) == if name in names then Built(ms, name, series) else NOTHING
    decreases |names|
  {
    if names != [] {
      var n := |names| - 1;
      BuildPicks(names[..n], ms, name, series);
      BuildLast(names, ms, name, series);
      JoinLaws(Built(ms, name, series), NOTHING, NOTHING);
      InLast(names, name);
    }
  }

  lemma InLast(names: seq<string>, name: string)
    requires names != []
    requires forall i, j | 0 <= i < j < |names| :: names[i] != names[j]
    ensures name in names <==> name in names[..|names| - 1] || name == names[|names| - 1]
    ensures name == names[|names| - 1] ==> name !in names[..|names| - 1]
  {
    assert names == names[..|names| - 1] + [names[|names| - 1]];
  }

  lemma BuiltTally(ms: seq<Metric>, name: string, series: string)
    requires name != MEAN
    ensures Built(ms, name, series) == OfMetrics(ms, name, series)
  {
    NamedHasName(ms, name);
    if Named(ms, name) == [] { AbsentTally(ms, name, series); } else { OneTally(ms, name, series); }
  }

  /**
   Aggregation is conservative: for every metric that is not averaged, each label of the result has the
   flat sum over all lists, and no label appears or disappears.
   */
  lemma AggregateConserves(lists: seq<seq<Metric>>, name: string, series: string)
    requires lists != [] && Aggregate(lists).Some? && name != MEAN
    ensures OfMetrics(Aggregate(lists).value, name, series) == OfLists(lists, name, series)
  {
    var names := Names(lists[Longest(lists)]);
    var ms := Flat(lists);
    BuildPicks(names, ms, name, series);
    BuiltTally(ms, name, series);
    if name !in names { AbsentTally(ms, name, series); }
    FlatTally(lists, name, series);
  }

  /** It succeeds exactly when one list of maximal length, the first, has every name of the others. */
  lemma AggregateSucceeds(lists: seq<seq<Metric>>)
    requires lists != []
    ensures Aggregate(lists).Some? <==>
            forall k, i | 0 <= k < |lists| && 0 <= i < |lists[k]| :: lists[k][i].name in Names(lists[Longest(lists)])
  {
    var names := Names(lists[Longest(lists)]);
    if Aggregate(lists).Some? {
      forall k, i | 0 <= k < |lists| && 0 <= i < |lists[k]| ensures lists[k][i].name in names {
        FlatHasAll(lists, k, i);
      }
    } else {
      var q :| 0 <= q < |Flat(lists)| && Flat(lists)[q].name !in names;
      var k, i := FlatComesFrom(lists, q);
    }
  }

  lemma {:induction false} FlatComesFrom(lists: seq<seq<Metric>>, q: nat) returns (k: nat, i: nat)
    requires q < |Flat(lists)|
    ensures k < |lists| && i < |lists[k]| && Flat(lists)[q] == lists[k][i]
    decreases |lists|
  {
    var n := |lists| - 1;
    if q < |Flat(lists[..n])| {
      k, i := FlatComesFrom(lists[..n], q);
    } else {
      k, i := n, q - |Flat(lists[..n])|;
    }
  }

  // ---------------------------------------------------------------------------------------------
  // When aggregation succeeds, for lists that have each name once
  // ---------------------------------------------------------------------------------------------

  function NameSet(ms: seq<Metric>): set<string> {
    set i | 0 <= i < |ms| :: ms[i].name
  }

  predicate DistinctNames(ms: seq<Metric>) {
    forall i, j | 0 <= i < j < |ms| :: ms[i].name != ms[j].name
  }

  predicate AllWithin(lists: seq<seq<Metric>>, names: set<string>) {
    forall k | 0 <= k < |lists| :: NameSet(lists[k]) <= names
  }

  lemma {:induction false} NameSetSize(ms: seq<Metric>)
    ensures |NameSet(ms)| <= |ms|
    ensures DistinctNames(ms) ==> |NameSet(ms)| == |ms|
    decreases |ms|
  {
    if ms == [] {
      assert NameSet(ms) == {};
    } else {
      var n := |ms| - 1;
      NameSetSize(ms[..n]);
      assert forall i | 0 <= i < n :: ms[..n][i] == ms[i];
      assert NameSet(ms) == NameSet(ms[..n]) + {ms[n].name};
    }
  }

  lemma SubsetOfSameSize(a: set<string>, b: set<string>)
    requires a <= b && |a| >= |b|
    ensures a == b
  {
    if x :| x in b && x !in a {
      assert |b - {x}| == |b| - 1;
      SubsetSize(a, b - {x});
    }
  }

  lemma {:induction false} SubsetSize(a: set<string>, b: set<string>)
    requires a <= b
    ensures |a| <= |b|
    decreases a
  {
    if x :| x in a {
      SubsetSize(a - {x}, b - {x});
    }
  }

  /** Then it succeeds exactly if some list has all names. */
  lemma AggregateNeedsCover(lists: seq<seq<Metric>>)
    requires lists != [] && forall k | 0 <= k < |lists| :: DistinctNames(lists[k])
    ensures Aggregate(lists).Some? <==> exists k :: 0 <= k < |lists| && AllWithin(lists, NameSet(lists[k]))
  {
    var top := Longest(lists);
    AggregateSucceeds(lists);
    NamesComeFrom(lists[top]);
    if k :| 0 <= k < |lists| && AllWithin(lists, NameSet(lists[k])) {
      NameSetSize(lists[top]);
      NameSetSize(lists[k]);
      SubsetOfSameSize(NameSet(lists[top]), NameSet(lists[k]));
    }
    if Aggregate(lists).Some? {
      forall k | 0 <= k < |lists| ensures NameSet(lists[k]) <= NameSet(lists[top]) {
      }
      assert AllWithin(lists, NameSet(lists[top]));
    }
  }

  lemma OccursOnce(ms: seq<Metric>, name: string)
    requires name in NameSet(ms)
    ensures Named(ms, name) != [] && AggregateOne(Named(ms, name)).name == name
  {
    NamedHasName(ms, name);
  }

  lemma {:induction false} BuildNames(names: seq<string>, ms: seq<Metric>)
    requires forall i, j | 0 <= i < j < |names| :: names[i] != names[j]
    requires forall i | 0 <= i < |names| :: names[i] in NameSet(ms)
    ensures |Build(names, ms)| == |names| && forall i | 0 <= i < |names| :: Build(names, ms)[i].name == names[i]
    decreases |names|
  {
    if names != [] {
      var n := |names| - 1;
      BuildNames(names[..n], ms);
      OccursOnce(ms, names[n]);
    }
  }

  lemma LongestNamesOccur(lists: seq<seq<Metric>>)
    requires lists != []
    ensures var names := Names(lists[Longest(lists)]);
            forall i | 0 <= i < |names| :: names[i] in NameSet(Flat(lists))
  {
    var top := Longest(lists);
    var names := Names(lists[top]);
    NamesComeFrom(lists[top]);
    forall i | 0 <= i < |names| ensures names[i] in NameSet(Flat(lists)) {
      assert names[i] in names;
      var q :| 0 <= q < |lists[top]| && lists[top][q].name == names[i];
      FlatHasAll(lists, top, q);
      var f :| 0 <= f < |Flat(lists)| && Flat(lists)[f] == lists[top][q];
    }
  }

  lemma SameNames(r: seq<Metric>, names: seq<string>, ms: seq<Metric>)
    requires |r| == |names| && forall i | 0 <= i < |names| :: r[i].name == names[i]
    requires names == Names(ms)
    ensures NameSet(r) == NameSet(ms)
  {
    NamesComeFrom(ms);
    forall x | x in NameSet(ms) ensures x in NameSet(r) {
      var i :| 0 <= i < |names| && names[i] == x;
      assert r[i].name == x;
    }
    forall x | x in NameSet(r) ensures x in NameSet(ms) {
      var i :| 0 <= i < |r| && r[i].name == x;
      assert names[i] in names;
    }
  }

  lemma DistinctByNames(r: seq<Metric>, names: seq<string>)
    requires |r| == |names| && forall i | 0 <= i < |names| :: r[i].name == names[i]
    requires forall i, j | 0 <= i < j < |names| :: names[i] != names[j]
    ensures DistinctNames(r)
  {
  }

  lemma BuildOfLongest(lists: seq<seq<Metric>>, r: seq<Metric>)
    requires lists != [] && r == Build(Names(lists[Longest(lists)]), Flat(lists))
    ensures DistinctNames(r) && NameSet(r) == NameSet(lists[Longest(lists)])
  {
    var names := Names(lists[Longest(lists)]);
    BuildOfLongestNames(lists, r, names);
    SameNames(r, names, lists[Longest(lists)]);
    DistinctByNames(r, names);
  }

  lemma BuildOfLongestNames(lists: seq<seq<Metric>>, r: seq<Metric>, names: seq<string>)
    requires lists != [] && names == Names(lists[Longest(lists)]) && r == Build(names, Flat(lists))
    ensures |r| == |names| && forall i | 0 <= i < |names| :: r[i].name == names[i]
  {
    LongestNamesOccur(lists);
    BuildNames(names, Flat(lists));
  }

  /** The result has each name of the longest list, and so of every list, once. */
  lemma AggregateNames(lists: seq<seq<Metric>>)
    requires lists != [] && Aggregate(lists).Some?
    ensures DistinctNames(Aggregate(lists).value)
    ensures NameSet(Aggregate(lists).value) == NameSet(lists[Longest(lists)])
  {
    BuildOfLongest(lists, Aggregate(lists).value);
  }

  lemma AggregateCovers(lists: seq<seq<Metric>>, k: nat, i: nat)
    requires lists != [] && Aggregate(lists).Some?
    requires k < |lists| && i < |lists[k]|
    ensures lists[k][i].name in NameSet(lists[Longest(lists)])
  {
    AggregateSucceeds(lists);
    NamesComeFrom(lists[Longest(lists)]);
  }
  /** If the longest list has each name once, the result has its names in its order. */
  lemma AggregateKeepsOrder(lists: seq<seq<Metric>>)
    requires lists != [] && Aggregate(lists).Some? && DistinctNames(lists[Longest(lists)])
    ensures var top, r := lists[Longest(lists)], Aggregate(lists).value;
            |r| == |top| && forall i | 0 <= i < |r| :: r[i].name == top[i].name
  {
    BuildOfLongestNames(lists, Aggregate(lists).value, Names(lists[Longest(lists)]));
    NamesInOrder(lists[Longest(lists)]);
  }

  lemma {:induction false} NamesInOrder(ms: seq<Metric>)
    requires DistinctNames(ms)
    ensures |Names(ms)| == |ms| && forall i | 0 <= i < |ms| :: Names(ms)[i] == ms[i].name
    decreases |ms|
  {
    if ms != [] {
      var n := |ms| - 1;
      assert forall i | 0 <= i < n :: ms[..n][i] == ms[i];
      NamesInOrder(ms[..n]);
      NamesAreNew(ms[..n], Names(ms[..n]), ms[n].name);
    }
  }

  lemma NamesAreNew(ms: seq<Metric>, names: seq<string>, name: string)
    requires |names| == |ms| && forall i | 0 <= i < |ms| :: names[i] == ms[i].name && ms[i].name != name
    ensures name !in names
  {
  }

  /** The first metric of that name, list by list. */
  predicate FirstWithName(ms: seq<Metric>, name: string, q: nat) {
    q < |ms| && ms[q].name == name && forall p | 0 <= p < q :: ms[p].name != name
  }

  lemma {:induction false} NamedFirst(ms: seq<Metric>, name: string, q: nat)
    requires FirstWithName(ms, name, q)
    ensures Named(ms, name) != [] && Named(ms, name)[0] == ms[q]
    decreases |ms|
  {
    var n := |ms| - 1;
    if q < n {
      assert FirstWithName(ms[..n], name, q);
      NamedFirst(ms[..n], name, q);
    } else {
      NamedHasName(ms[..n], name);
      assert forall p | 0 <= p < n :: ms[..n][p] == ms[p];
      assert Named(ms[..n], name) == [];
    }
  }

  lemma {:induction false} BuildFrom(names: seq<string>, ms: seq<Metric>, i: nat) returns (name: string)
    requires i < |Build(names, ms)|
    ensures Named(ms, name) != [] && Build(names, ms)[i] == AggregateOne(Named(ms, name))
    decreases |names|
  {
    var n := |names| - 1;
    if i < |Build(names[..n], ms)| { name := BuildFrom(names[..n], ms, i); } else { name := names[n]; }
  }

  /** Name, help and type of an aggregated metric are those of the first one with the name. */
  lemma AggregateHeads(lists: seq<seq<Metric>>, i: nat, q: nat)
    requires lists != [] && Aggregate(lists).Some? && i < |Aggregate(lists).value|
    requires FirstWithName(Flat(lists), Aggregate(lists).value[i].name, q)
    ensures var m, first := Aggregate(lists).value[i], Flat(lists)[q]; m.help == first.help && m.kind == first.kind
  {
    var ms := Flat(lists);
    var name := BuildFrom(Names(lists[Longest(lists)]), ms, i);
    NamedHasName(ms, name);
    NamedFirst(ms, name, q);
  }

  // ---------------------------------------------------------------------------------------------
  // The averaged metric
  // ---------------------------------------------------------------------------------------------

  /** How many metrics of the lists have the name. */
  function HowMany(lists: seq<seq<Metric>>, name: string): nat {
    if lists == [] then 0 else HowMany(lists[..|lists| - 1], name) + HowManyIn(lists[|lists| - 1], name)
  }

  function HowManyIn(ms: seq<Metric>, name: string): nat {
    if ms == [] then 0 else HowManyIn(ms[..|ms| - 1], name) + if ms[|ms| - 1].name == name then 1 else 0
  }

  lemma {:induction false} NamedConcat(a: seq<Metric>, b: seq<Metric>, name: string)
    ensures Named(a + b, name) == Named(a, name) + Named(b, name)
    decreases |b|
  {
    if b == [] {
      assert a + b == a;
    } else {
      var n := |b| - 1;
      assert (a + b)[..|a + b| - 1] == a + b[..n];
      NamedConcat(a, b[..n], name);
    }
  }

  lemma {:induction false} NamedCount(ms: seq<Metric>, name: string)
    ensures |Named(ms, name)| == HowManyIn(ms, name)
    decreases |ms|
  {
    if ms != [] { NamedCount(ms[..|ms| - 1], name); }
  }

  lemma {:induction false} FlatCount(lists: seq<seq<Metric>>, name: string)
    ensures |Named(Flat(lists), name)| == HowMany(lists, name)
    decreases |lists|
  {
    if lists != [] {
      var n := |lists| - 1;
      FlatCount(lists[..n], name);
      NamedConcat(Flat(lists[..n]), lists[n], name);
      NamedCount(lists[n], name);
    }
  }

  /** The second tally is the first one's total times a number, with the same presence. */
  predicate Times(a: Tally, n: nat, b: Tally) {
    a.present == b.present && a.total * n as real == b.total
  }

  lemma TimesNothing(n: nat)
    ensures Times(NOTHING, n, NOTHING)
  {
  }

  lemma TimesJoin(a: Tally, b: Tally, n: nat, x: Tally, y: Tally)
    requires Times(a, n, x) && Times(b, n, y)
    ensures Times(Join(a, b), n, Join(x, y))
  {
  }

  lemma DividedTimes(v: real, n: nat)
    requires n > 0
    ensures v / n as real * n as real == v
  {
  }

  lemma SampleTimes(s: Sample, n: nat, series: string)
    requires n > 0
    ensures Times(OfSample(s.(value := s.value / n as real), series), n, OfSample(s, series))
  {
    DividedTimes(s.value, n);
    TimesNothing(n);
  }

  lemma {:induction false} QuotientsTimes(xs: seq<Sample>, quotients: seq<Sample>, n: nat, series: string)
    requires n > 0 && |quotients| == |xs|
    requires forall i | 0 <= i < |xs| :: quotients[i] == xs[i].(value := xs[i].value / n as real)
    ensures Times(OfSamples(quotients, series), n, OfSamples(xs, series))
    decreases |xs|
  {
    if xs == [] {
      TimesNothing(n);
    } else {
      SampleTimes(xs[0], n, series);
      QuotientsTimes(xs[1..], quotients[1..], n, series);
      TimesJoin(OfSample(quotients[0], series), OfSamples(quotients[1..], series), n, OfSample(xs[0], series), OfSamples(xs[1..], series));
    }
  }

  lemma MeansTimes(ms: seq<Metric>, series: string)
    requires ms != []
    ensures Times(OfSamples(Means(ms), series), |ms|, OfSamples(SamplesOf(ms), series))
  {
    var sums := Sums(SamplesOf(ms));
    QuotientsTimes(sums, Means(ms), |ms|, series);
    SumsAreTotals(SamplesOf(ms), series);
  }

  /** Of metrics of that name, each label carries its sum divided by the number of metrics. */
  lemma AggregateOneAverages(ms: seq<Metric>, series: string)
    requires ms != [] && ms[0].name == "vllm:kv_cache_usage_perc"
    ensures Times(OfSamples(AggregateOne(ms).samples, series), |ms|, OfSamples(SamplesOf(ms), series))
  {
    MeansTimes(ms, series);
  }

  /**
   The cache usage is averaged: times the number of metrics aggregated, each label of the result is its
   flat sum over all lists, whether or not every metric has the label; and no label appears or disappears.
   */
  lemma AggregateAverages(lists: seq<seq<Metric>>, series: string)
    requires lists != [] && Aggregate(lists).Some?
    ensures var name := "vllm:kv_cache_usage_perc";
            Times(OfMetrics(Aggregate(lists).value, name, series), HowMany(lists, name), OfLists(lists, name, series))
  {
    var name := "vllm:kv_cache_usage_perc";
    var ms := Flat(lists);
    var names := Names(lists[Longest(lists)]);
    BuildPicks(names, ms, name, series);
    FlatTally(lists, name, series);
    FlatCount(lists, name);
    NamedHasName(ms, name);
    if Named(ms, name) == [] {
      AbsentTally(ms, name, series);
      TimesNothing(0);
    } else {
      assert name in names;
      AggregateOneAverages(Named(ms, name), series);
      NamedTally(ms, name, series);
    }
  }

  // ---------------------------------------------------------------------------------------------
  // The order of labels
  // ---------------------------------------------------------------------------------------------

  predicate HasLabel(xs: seq<Sample>, series: string) {
    exists i :: 0 <= i < |xs| && xs[i].series == series
  }

  lemma {:induction false} AddLabels(sums: seq<Sample>, s: Sample)
    ensures |sums| <= |Add(sums, s)|
    ensures forall i | 0 <= i < |sums| :: Add(sums, s)[i].series == sums[i].series
    ensures if HasLabel(sums, s.series) then |Add(sums, s)| == |sums|
            else |Add(sums, s)| == |sums| + 1 && Add(sums, s)[|sums|].series == s.series
  {
    if sums != [] && sums[0].series != s.series {
      AddLabels(sums[1..], s);
      if HasLabel(sums, s.series) {
        var i :| 0 <= i < |sums| && sums[i].series == s.series;
        assert sums[1..][i - 1].series == s.series;
      }
      if HasLabel(sums[1..], s.series) {
        var i :| 0 <= i < |sums[1..]| && sums[1..][i].series == s.series;
        assert sums[i + 1].series == s.series;
      }
    }
  }

  /** A sample with a label not seen before puts the label at the end; any other keeps all labels in place. */
  lemma SumsKeepOrder(xs: seq<Sample>, s: Sample)
    ensures var before, after := Sums(xs), Sums(xs + [s]);
            && |before| <= |after| && (forall i | 0 <= i < |before| :: after[i].series == before[i].series)
            && if HasLabel(before, s.series) then |after| == |before|
               else |after| == |before| + 1 && after[|before|].series == s.series
  {
    assert (xs + [s])[..|xs|] == xs;
    AddLabels(Sums(xs), s);
  }
}
