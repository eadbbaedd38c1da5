/**
 The coordinator's metrics collector: per-instance caches, the history bucket that unavailable instances
 are folded into, and the export over both. Gauges count for active instances only.
 */
module MetricsCollector {
  import opened Prelude
  import opened Metrics

  /** One cached instance; the cache is a dictionary in insertion order. */
  datatype Entry = Entry(id: int, metrics: seq<Metric>)

  /** What was read from one instance: the parsed metrics of each endpoint. */
  datatype Reading = Reading(id: int, endpoints: seq<seq<Metric>>)

  // ---------------------------------------------------------------------------------------------
  // Cache
  // ---------------------------------------------------------------------------------------------

  predicate DistinctIds(cache: seq<Entry>) {
    forall i, j | 0 <= i < j < |cache| :: cache[i].id != cache[j].id
  }

  predicate Has(cache: seq<Entry>, id: int) {
    exists i :: 0 <= i < |cache| && cache[i].id == id
  }

  function Lookup(cache: seq<Entry>, id: int): seq<Metric> {
    if cache == [] then [] else if cache[0].id == id then cache[0].metrics else Lookup(cache[1..], id)
  }

  function SetEntry(cache: seq<Entry>, e: Entry): seq<Entry> {
    if cache == [] then [e]
    else if cache[0].id == e.id then [e] + cache[1..]
    else [cache[0]] + SetEntry(cache[1..], e)
  }

  function Remove(cache: seq<Entry>, id: int): seq<Entry> {
    if cache == [] then []
    else if cache[0].id == id then cache[1..]
    else [cache[0]] + Remove(cache[1..], id)
  }

  function RemoveAll(cache: seq<Entry>, ids: seq<int>): seq<Entry>
    decreases |ids|
  {
    if ids == [] then cache else RemoveAll(Remove(cache, ids[0]), ids[1..])
  }

  // ---------------------------------------------------------------------------------------------
  // Masking gauges
  // ---------------------------------------------------------------------------------------------

  /** The same metric with all values at zero. */
  function Cleared(m: Metric): Metric {
    m.(samples := Zeros(m.samples))
  }

  function Zeros(xs: seq<Sample>): seq<Sample> {
    seq(|xs|, i requires 0 <= i < |xs| => xs[i].(value := 0.0))
  }

  function Mask(ms: seq<Metric>, inactive: bool): seq<Metric> {
    seq(|ms|, i requires 0 <= i < |ms| => if inactive && ms[i].kind == Gauge then Cleared(ms[i]) else ms[i])
  }

  function Masked(cache: seq<Entry>, active: set<int>): seq<seq<Metric>> {
    if cache == [] then [] else [Mask(cache[0].metrics, cache[0].id !in active)] + Masked(cache[1..], active)
  }

  predicate AllGauges(ms: seq<Metric>, name: string) {
    forall i | 0 <= i < |ms| :: ms[i].name == name ==> ms[i].kind == Gauge
  }

  predicate NoGauges(ms: seq<Metric>, name: string) {
    forall i | 0 <= i < |ms| :: ms[i].name == name ==> ms[i].kind != Gauge
  }

  /** A gauge of an inactive instance keeps its labels and totals nothing. */
  lemma {:induction false} MaskGauge(ms: seq<Metric>, name: string, series: string)
    requires AllGauges(ms, name)
    ensures OfMetrics(Mask(ms, true), name, series) == Tally(0.0, OfMetrics(ms, name, series).present)
    decreases |ms|
  {
    if ms == [] {
      assert Mask(ms, true) == [];
    } else {
      assert Mask(ms, true)[1..] == Mask(ms[1..], true);
      MaskGauge(ms[1..], name, series);
      ClearedTally(ms[0].samples, series);
    }
  }

  /** Every other metric counts in full, whether or not the instance is active. */
  lemma {:induction false} MaskOther(ms: seq<Metric>, inactive: bool, name: string, series: string)
    requires NoGauges(ms, name) || !inactive
    ensures OfMetrics(Mask(ms, inactive), name, series) == OfMetrics(ms, name, series)
    decreases |ms|
  {
    if ms != [] {
      assert Mask(ms, inactive)[1..] == Mask(ms[1..], inactive);
      MaskOther(ms[1..], inactive, name, series);
    }
  }

  lemma {:induction false} ClearedTally(xs: seq<Sample>, series: string)
    ensures OfSamples(Zeros(xs), series) == Tally(0.0, OfSamples(xs, series).present)
    decreases |xs|
  {
    if xs != [] {
      assert Zeros(xs)[1..] == Zeros(xs[1..]);
      ClearedTally(xs[1..], series);
    }
  }

  // ---------------------------------------------------------------------------------------------
  // Operations
  // ---------------------------------------------------------------------------------------------

  /** Readings without endpoints are skipped; None is a failed lookup. */
  function ByInstance(cache: seq<Entry>, readings: seq<Reading>): Option<seq<Entry>> {
    if readings == [] then Some(cache)
    else
      var n := |readings| - 1;
      var before := ByInstance(cache, readings[..n]);
      if before == None || readings[n].endpoints == [] then before
      else
        var one := Aggregate(readings[n].endpoints);
        if one == None then None else Some(SetEntry(before.value, Entry(readings[n].id, one.value)))
  }

  function Export(cache: seq<Entry>, history: seq<Metric>, active: set<int>): Option<seq<Metric>> {
    if cache == [] then Some([]) else Aggregate(Masked(cache, active) + [history])
  }

  /** The masked metrics of the cached instances among the ids. */
  function Folded(cache: seq<Entry>, ids: seq<int>): seq<seq<Metric>> {
    if ids == [] then []
    else (if Has(cache, ids[0]) then [Mask(Lookup(cache, ids[0]), true)] else []) + Folded(cache, ids[1..])
  }

  function NewHistory(cache: seq<Entry>, history: seq<Metric>, gone: seq<int>): Option<seq<Metric>> {
    Aggregate(Folded(cache, gone) + [history])
  }

  // ---------------------------------------------------------------------------------------------
  // Totals over the cache
  // ---------------------------------------------------------------------------------------------

  function OfCache(cache: seq<Entry>, active: set<int>, name: string, series: string): Tally {
    OfLists(Masked(cache, active), name, series)
  }

  function OfEntry(e: Entry, active: set<int>, name: string, series: string): Tally {
    OfMetrics(Mask(e.metrics, e.id !in active), name, series)
  }

  lemma OfCacheHead(cache: seq<Entry>, active: set<int>, name: string, series: string)
    requires cache != []
    ensures OfCache(cache, active, name, series) == Join(OfEntry(cache[0], active, name, series), OfCache(cache[1..], active, name, series))
  {
    assert Masked(cache, active)[1..] == Masked(cache[1..], active);
  }

  lemma JoinSwaps(a: Tally, b: Tally, c: Tally)
    ensures Join(a, Join(b, c)) == Join(b, Join(a, c))
  {
    JoinLaws(a, b, c);
    JoinLaws(b, a, c);
  }

  /** Taking an instance out of the cache takes its own tally out of the total. */
  lemma {:induction false} RemoveTally(cache: seq<Entry>, id: int, active: set<int>, name: string, series: string)
    requires Has(cache, id)
    ensures OfCache(cache, active, name, series) ==
            Join(OfEntry(Entry(id, Lookup(cache, id)), active, name, series), OfCache(Remove(cache, id), active, name, series))
    decreases |cache|
  {
    OfCacheHead(cache, active, name, series);
    if cache[0].id != id {
      HasTail(cache, id);
      RemoveTally(cache[1..], id, active, name, series);
      OfCacheHead(Remove(cache, id), active, name, series);
      assert Remove(cache, id)[1..] == Remove(cache[1..], id);
      JoinSwaps(OfEntry(cache[0], active, name, series), OfEntry(Entry(id, Lookup(cache, id)), active, name, series),
                OfCache(Remove(cache[1..], id), active, name, series));
    }
  }

  lemma HasTail(cache: seq<Entry>, id: int)
    requires cache != [] && cache[0].id != id
    ensures Has(cache, id) <==> Has(cache[1..], id)
  {
    if Has(cache, id) {
      var i :| 0 <= i < |cache| && cache[i].id == id;
      assert cache[1..][i - 1].id == id;
    }
  }

  /** Setting an entry replaces the instance's own tally. */
  lemma {:induction false} SetTally(cache: seq<Entry>, e: Entry, active: set<int>, name: string, series: string)
    ensures OfCache(SetEntry(cache, e), active, name, series) ==
            Join(OfEntry(e, active, name, series), OfCache(Remove(cache, e.id), active, name, series))
    decreases |cache|
  {
    OfCacheHead(SetEntry(cache, e), active, name, series);
    if cache == [] {
      assert SetEntry(cache, e)[1..] == [];
    } else if cache[0].id == e.id {
      assert SetEntry(cache, e)[1..] == cache[1..];
    } else {
      assert SetEntry(cache, e)[1..] == SetEntry(cache[1..], e);
      SetTally(cache[1..], e, active, name, series);
      OfCacheHead(Remove(cache, e.id), active, name, series);
      assert Remove(cache, e.id)[1..] == Remove(cache[1..], e.id);
      JoinSwaps(OfEntry(cache[0], active, name, series), OfEntry(e, active, name, series),
                OfCache(Remove(cache[1..], e.id), active, name, series));
    }
  }

  // ---------------------------------------------------------------------------------------------
  // Folding into history
  // ---------------------------------------------------------------------------------------------

  lemma {:induction false} RemoveKeepsOthers(cache: seq<Entry>, id: int, other: int)
    requires id != other
    ensures Has(Remove(cache, id), other) <==> Has(cache, other)
    ensures Lookup(Remove(cache, id), other) == Lookup(cache, other)
    decreases |cache|
  {
    if cache != [] {
      RemoveKeepsOthers(cache[1..], id, other);
      if cache[0].id == id {
        HasTail(cache, other);
      } else {
        assert Remove(cache, id)[1..] == Remove(cache[1..], id);
        if cache[0].id != other {
          HasTail(cache, other);
          HasTail(Remove(cache, id), other);
        } else {
          assert Remove(cache, id)[0].id == other;
        }
      }
    }
  }

  lemma {:induction false} RemoveAbsent(cache: seq<Entry>, id: int)
    requires !Has(cache, id)
    ensures Remove(cache, id) == cache
    decreases |cache|
  {
    if cache != [] {
      assert cache[0].id != id;
      HasTail(cache, id);
      RemoveAbsent(cache[1..], id);
    }
  }

  lemma {:induction false} FoldedAfterRemove(cache: seq<Entry>, id: int, ids: seq<int>)
    requires id !in ids
    ensures Folded(Remove(cache, id), ids) == Folded(cache, ids)
    decreases |ids|
  {
    if ids != [] {
      RemoveKeepsOthers(cache, id, ids[0]);
      FoldedAfterRemove(cache, id, ids[1..]);
    }
  }

  predicate Distinct(ids: seq<int>) {
    forall i, j | 0 <= i < j < |ids| :: ids[i] != ids[j]
  }

  /** The part folded away and the part that stays make up the cache, gauges at zero in both views. */
  lemma {:induction false} FoldedTally(cache: seq<Entry>, gone: seq<int>, active: set<int>, name: string, series: string)
    requires Distinct(gone) && forall i | 0 <= i < |gone| :: gone[i] !in active
    ensures Join(OfLists(Folded(cache, gone), name, series), OfCache(RemoveAll(cache, gone), active, name, series)) ==
            OfCache(cache, active, name, series)
    decreases |gone|
  {
    if gone == [] {
      JoinLaws(OfCache(cache, active, name, series), NOTHING, NOTHING);
    } else {
      var id := gone[0];
      var rest := Remove(cache, id);
      assert forall i | 0 <= i < |gone[1..]| :: gone[1..][i] == gone[i + 1];
      assert id !in gone[1..];
      FoldedTally(rest, gone[1..], active, name, series);
      FoldedAfterRemove(cache, id, gone[1..]);
      if Has(cache, id) {
        RemoveTally(cache, id, active, name, series);
        assert Folded(cache, gone)[1..] == Folded(cache, gone[1..]);
        JoinLaws(OfEntry(Entry(id, Lookup(cache, id)), active, name, series), OfLists(Folded(cache, gone[1..]), name, series),
                 OfCache(RemoveAll(rest, gone[1..]), active, name, series));
      } else {
        RemoveAbsent(cache, id);
        assert Folded(cache, gone) == Folded(cache, gone[1..]);
      }
    }
  }

  /**
   Folding instances that are not active into the history leaves every exported total as it was, gauges
   included, as long as an instance stays cached.
   */
  lemma FoldKeepsTotals(cache: seq<Entry>, history: seq<Metric>, gone: seq<int>, active: set<int>, name: string, series: string)
    requires Distinct(gone) && (forall i | 0 <= i < |gone| :: gone[i] !in active) && name != MEAN
    requires NewHistory(cache, history, gone).Some? && RemoveAll(cache, gone) != [] && cache != []
    requires Export(cache, history, active).Some?
    requires Export(RemoveAll(cache, gone), NewHistory(cache, history, gone).value, active).Some?
    ensures OfMetrics(Export(RemoveAll(cache, gone), NewHistory(cache, history, gone).value, active).value, name, series) ==
            OfMetrics(Export(cache, history, active).value, name, series)
  {
    var rest := RemoveAll(cache, gone);
    var newer := NewHistory(cache, history, gone).value;
    var folded := Folded(cache, gone);
    AggregateConserves(Masked(cache, active) + [history], name, series);
    AggregateConserves(Masked(rest, active) + [newer], name, series);
    AggregateConserves(folded + [history], name, series);
    OfListsSnoc(Masked(cache, active), history, name, series);
    OfListsSnoc(Masked(rest, active), newer, name, series);
    OfListsSnoc(folded, history, name, series);
    FoldedTally(cache, gone, active, name, series);
    Regroup(OfLists(folded, name, series), OfCache(rest, active, name, series), OfMetrics(history, name, series));
  }

  lemma Regroup(a: Tally, b: Tally, h: Tally)
    ensures Join(b, Join(a, h)) == Join(Join(a, b), h)
  {
  }

  /** When the last cached instance is folded away, the export is empty and its history does not show. */
  lemma LastInstanceHidesHistory(cache: seq<Entry>, history: seq<Metric>, gone: seq<int>, active: set<int>)
    requires forall i | 0 <= i < |cache| :: cache[i].id in gone
    requires DistinctIds(cache)
    ensures RemoveAll(cache, gone) == [] && Export(RemoveAll(cache, gone), history, active) == Some([])
  {
    RemoveAllEmpties(cache, gone);
  }

  lemma {:induction false} RemoveAllEmpties(cache: seq<Entry>, gone: seq<int>)
    requires DistinctIds(cache) && forall x :: Has(cache, x) ==> x in gone
    ensures RemoveAll(cache, gone) == []
    decreases |gone|
  {
    if gone == [] {
      if cache != [] {
        assert Has(cache, cache[0].id);
        assert false;
      }
    } else {
      var rest := Remove(cache, gone[0]);
      RemoveShrinks(cache, gone[0]);
      forall x | Has(rest, x) ensures x in gone[1..] {
        var i :| 0 <= i < |rest| && rest[i].id == x;
        assert Has(cache, x);
      }
      RemoveAllEmpties(rest, gone[1..]);
    }
  }

  lemma {:induction false} RemoveShrinks(cache: seq<Entry>, id: int)
    requires DistinctIds(cache)
    ensures DistinctIds(Remove(cache, id))
    ensures forall i | 0 <= i < |Remove(cache, id)| :: Has(cache, Remove(cache, id)[i].id) && Remove(cache, id)[i].id != id
    decreases |cache|
  {
    if cache != [] {
      RemoveShrinks(cache[1..], id);
      var rest := Remove(cache, id);
      forall i | 0 <= i < |rest| ensures Has(cache, rest[i].id) && rest[i].id != id {
        if cache[0].id == id {
          assert rest[i] == cache[i + 1];
        } else if i == 0 {
          assert rest[0] == cache[0];
        } else {
          assert rest[i] == Remove(cache[1..], id)[i - 1];
          HasTailKeeps(cache, rest[i].id);
        }
      }
    }
  }

  lemma HasTailKeeps(cache: seq<Entry>, id: int)
    requires cache != [] && Has(cache[1..], id)
    ensures Has(cache, id)
  {
    var j :| 0 <= j < |cache[1..]| && cache[1..][j].id == id;
    assert cache[j + 1].id == id;
  }

  // ---------------------------------------------------------------------------------------------
  // Folding does not make a later export fail
  // ---------------------------------------------------------------------------------------------

  /** Aggregated metrics have each name once, and the cache each instance once. */
  predicate Tidy(cache: seq<Entry>, history: seq<Metric>) {
    DistinctIds(cache) && DistinctNames(history) && forall i | 0 <= i < |cache| :: DistinctNames(cache[i].metrics)
  }

  lemma MaskNames(ms: seq<Metric>, inactive: bool)
    ensures NameSet(Mask(ms, inactive)) == NameSet(ms)
    ensures DistinctNames(ms) ==> DistinctNames(Mask(ms, inactive))
  {
    var masked := Mask(ms, inactive);
    assert forall i | 0 <= i < |ms| :: masked[i].name == ms[i].name;
    forall x | x in NameSet(ms) ensures x in NameSet(masked) {
      var i :| 0 <= i < |ms| && ms[i].name == x;
      assert masked[i].name == x;
    }
  }

  lemma {:induction false} MaskedAt(cache: seq<Entry>, active: set<int>, i: nat)
    requires i < |cache|
    ensures |Masked(cache, active)| == |cache|
    ensures Masked(cache, active)[i] == Mask(cache[i].metrics, cache[i].id !in active)
    decreases |cache|
  {
    if i > 0 {
      MaskedAt(cache[1..], active, i - 1);
    } else if |cache| > 1 {
      MaskedAt(cache[1..], active, 0);
    }
  }

  lemma {:induction false} LookupAt(cache: seq<Entry>, id: int) returns (i: nat)
    requires Has(cache, id)
    ensures i < |cache| && cache[i].id == id && Lookup(cache, id) == cache[i].metrics
    decreases |cache|
  {
    if cache[0].id == id {
      i := 0;
    } else {
      HasTail(cache, id);
      i := LookupAt(cache[1..], id);
      i := i + 1;
    }
  }

  /** Each folded list comes from a cached instance. */
  lemma {:induction false} FoldedAt(cache: seq<Entry>, gone: seq<int>, q: nat) returns (i: nat)
    requires q < |Folded(cache, gone)|
    ensures i < |cache| && Folded(cache, gone)[q] == Mask(cache[i].metrics, true)
    decreases |gone|
  {
    if Has(cache, gone[0]) {
      if q == 0 {
        i := LookupAt(cache, gone[0]);
      } else {
        i := FoldedAt(cache, gone[1..], q - 1);
      }
    } else {
      i := FoldedAt(cache, gone[1..], q);
    }
  }

  /** Each cached instance that goes is folded. */
  lemma {:induction false} FoldedHas(cache: seq<Entry>, gone: seq<int>, i: nat) returns (q: nat)
    requires DistinctIds(cache) && i < |cache| && cache[i].id in gone
    ensures q < |Folded(cache, gone)| && Folded(cache, gone)[q] == Mask(cache[i].metrics, true)
    decreases |gone|
  {
    assert Has(cache, cache[i].id);
    if gone[0] == cache[i].id {
      var j := LookupAt(cache, gone[0]);
      assert j == i;
      q := 0;
    } else {
      q := FoldedHas(cache, gone[1..], i);
      if Has(cache, gone[0]) { q := q + 1; }
    }
  }

  lemma {:induction false} RemoveAt(cache: seq<Entry>, id: int, i: nat) returns (j: nat)
    requires i < |Remove(cache, id)|
    ensures j < |cache| && cache[j] == Remove(cache, id)[i]
    decreases |cache|
  {
    if cache[0].id == id {
      j := i + 1;
    } else if i == 0 {
      j := 0;
    } else {
      j := RemoveAt(cache[1..], id, i - 1);
      j := j + 1;
    }
  }

  lemma {:induction false} RemoveHas(cache: seq<Entry>, id: int, j: nat) returns (i: nat)
    requires j < |cache| && cache[j].id != id
    ensures i < |Remove(cache, id)| && Remove(cache, id)[i] == cache[j]
    decreases |cache|
  {
    if cache[0].id == id {
      i := j - 1;
    } else if j == 0 {
      i := 0;
    } else {
      i := RemoveHas(cache[1..], id, j - 1);
      i := i + 1;
    }
  }

  lemma {:induction false} RestAt(cache: seq<Entry>, gone: seq<int>, i: nat) returns (j: nat)
    requires i < |RemoveAll(cache, gone)|
    ensures j < |cache| && cache[j] == RemoveAll(cache, gone)[i]
    decreases |gone|
  {
    if gone == [] {
      j := i;
    } else {
      j := RestAt(Remove(cache, gone[0]), gone[1..], i);
      j := RemoveAt(cache, gone[0], j);
    }
  }

  lemma {:induction false} RestHas(cache: seq<Entry>, gone: seq<int>, j: nat) returns (i: nat)
    requires j < |cache| && cache[j].id !in gone
    ensures i < |RemoveAll(cache, gone)| && RemoveAll(cache, gone)[i] == cache[j]
    decreases |gone|
  {
    if gone == [] {
      i := j;
    } else {
      assert gone[0] in gone;
      i := RemoveHas(cache, gone[0], j);
      i := RestHas(Remove(cache, gone[0]), gone[1..], i);
    }
  }

  /** All names of the cache and the history are among these. */
  predicate Within(cache: seq<Entry>, history: seq<Metric>, names: set<string>) {
    NameSet(history) <= names && forall i | 0 <= i < |cache| :: NameSet(cache[i].metrics) <= names
  }

  /** The history or a cached instance has all the names. */
  predicate Tops(cache: seq<Entry>, history: seq<Metric>, names: set<string>) {
    NameSet(history) == names || exists i :: 0 <= i < |cache| && NameSet(cache[i].metrics) == names
  }

  lemma ExportLists(cache: seq<Entry>, history: seq<Metric>, active: set<int>)
    ensures var lists := Masked(cache, active) + [history];
            && |lists| == |cache| + 1
            && (forall i | 0 <= i < |cache| :: NameSet(lists[i]) == NameSet(cache[i].metrics))
            && lists[|cache|] == history
            && (Tidy(cache, history) ==> forall i | 0 <= i < |lists| :: DistinctNames(lists[i]))
  {
    if cache != [] { MaskedAt(cache, active, 0); }
    var masked := Masked(cache, active);
    forall i | 0 <= i < |cache|
      ensures NameSet(masked[i]) == NameSet(cache[i].metrics)
      ensures DistinctNames(cache[i].metrics) ==> DistinctNames(masked[i])
    {
      MaskedAt(cache, active, i);
      MaskNames(cache[i].metrics, cache[i].id !in active);
    }
  }

  lemma CoverIsTop(cache: seq<Entry>, history: seq<Metric>, active: set<int>, k: nat)
    requires var lists := Masked(cache, active) + [history]; k < |lists| && AllWithin(lists, NameSet(lists[k]))
    ensures var names := NameSet((Masked(cache, active) + [history])[k]);
            Within(cache, history, names) && Tops(cache, history, names)
  {
    var lists := Masked(cache, active) + [history];
    var names := NameSet(lists[k]);
    ExportLists(cache, history, active);
    forall i | 0 <= i < |cache| ensures NameSet(cache[i].metrics) <= names {
      assert NameSet(lists[i]) <= names;
    }
    assert NameSet(lists[|cache|]) <= names;
  }

  lemma TopIsCover(cache: seq<Entry>, history: seq<Metric>, active: set<int>, names: set<string>) returns (k: nat)
    requires Within(cache, history, names) && Tops(cache, history, names)
    ensures var lists := Masked(cache, active) + [history]; k < |lists| && AllWithin(lists, NameSet(lists[k]))
  {
    var lists := Masked(cache, active) + [history];
    ExportLists(cache, history, active);
    if NameSet(history) == names {
      k := |cache|;
    } else {
      k :| 0 <= k < |cache| && NameSet(cache[k].metrics) == names;
    }
    forall i | 0 <= i < |lists| ensures NameSet(lists[i]) <= names {
      if i < |cache| { assert NameSet(lists[i]) == NameSet(cache[i].metrics); }
    }
  }

  /** An export succeeds exactly if the history or a cached instance has all the names. */
  lemma ExportNeedsTop(cache: seq<Entry>, history: seq<Metric>, active: set<int>)
    requires Tidy(cache, history) && cache != []
    ensures Export(cache, history, active).Some? <==> exists names :: Within(cache, history, names) && Tops(cache, history, names)
  {
    var lists := Masked(cache, active) + [history];
    ExportLists(cache, history, active);
    AggregateNeedsCover(lists);
    if Export(cache, history, active).Some? {
      var k :| 0 <= k < |lists| && AllWithin(lists, NameSet(lists[k]));
      CoverIsTop(cache, history, active, k);
    }
    if names :| Within(cache, history, names) && Tops(cache, history, names) {
      var k := TopIsCover(cache, history, active, names);
    }
  }

  /** The new history has exactly the names of the instances folded and the old history. */
  lemma NewHistoryNames(cache: seq<Entry>, history: seq<Metric>, gone: seq<int>, names: set<string>)
    requires Tidy(cache, history) && Within(cache, history, names) && NewHistory(cache, history, gone).Some?
    ensures var h := NewHistory(cache, history, gone).value;
            && DistinctNames(h) && NameSet(h) <= names && NameSet(history) <= NameSet(h)
            && forall i | 0 <= i < |cache| :: cache[i].id in gone ==> NameSet(cache[i].metrics) <= NameSet(h)
  {
    var lists := Folded(cache, gone) + [history];
    var h := NewHistory(cache, history, gone).value;
    AggregateNames(lists);
    forall k | 0 <= k < |lists| ensures NameSet(lists[k]) <= NameSet(h) {
      forall i | 0 <= i < |lists[k]| ensures lists[k][i].name in NameSet(h) {
        AggregateCovers(lists, k, i);
      }
    }
    forall k | 0 <= k < |lists| ensures NameSet(lists[k]) <= names {
      if k < |Folded(cache, gone)| {
        var i := FoldedAt(cache, gone, k);
        MaskNames(cache[i].metrics, true);
      }
    }
    assert NameSet(lists[|lists| - 1]) <= NameSet(h);
    forall i | 0 <= i < |cache| && cache[i].id in gone ensures NameSet(cache[i].metrics) <= NameSet(h) {
      var q := FoldedHas(cache, gone, i);
      MaskNames(cache[i].metrics, true);
      assert NameSet(lists[q]) <= NameSet(h);
    }
  }

  /**
   If the export and the folding succeed, the export after the folding succeeds as well, with the same
   totals for every metric that is not averaged.
   */
  lemma FoldKeepsExport(cache: seq<Entry>, history: seq<Metric>, gone: seq<int>, active: set<int>)
    requires Tidy(cache, history) && Distinct(gone) && forall i | 0 <= i < |gone| :: gone[i] !in active
    requires cache != [] && RemoveAll(cache, gone) != []
    requires Export(cache, history, active).Some? && NewHistory(cache, history, gone).Some?
    ensures var after := Export(RemoveAll(cache, gone), NewHistory(cache, history, gone).value, active);
            && after.Some?
            && forall name, series :: name != MEAN ==>
                 OfMetrics(after.value, name, series) == OfMetrics(Export(cache, history, active).value, name, series)
  {
    ExportNeedsTop(cache, history, active);
    var names :| Within(cache, history, names) && Tops(cache, history, names);
    FoldKeepsTop(cache, history, gone, names);
    ExportNeedsTop(RemoveAll(cache, gone), NewHistory(cache, history, gone).value, active);
    forall name, series | name != MEAN
      ensures OfMetrics(Export(RemoveAll(cache, gone), NewHistory(cache, history, gone).value, active).value, name, series) ==
              OfMetrics(Export(cache, history, active).value, name, series)
    {
      FoldKeepsTotals(cache, history, gone, active, name, series);
    }
  }

  /** The later export succeeds and has the earlier totals, for every metric that is not averaged. */
  ghost predicate SameTotals(before: seq<Metric>, after: Option<seq<Metric>>) {
    after.Some? && forall name, series :: name != MEAN ==> OfMetrics(after.value, name, series) == OfMetrics(before, name, series)
  }

  ghost predicate TotalsNothing(ms: seq<Metric>) {
    forall name, series :: name != MEAN ==> OfMetrics(ms, name, series) == NOTHING
  }

  /**
   Folding keeps the exported totals if and only if an instance stays cached or there was nothing to
   export: when the last cached instance goes, the export is empty and its history does not show.
   */
  lemma FoldKeepsTotalsIff(cache: seq<Entry>, history: seq<Metric>, gone: seq<int>, active: set<int>)
    requires Tidy(cache, history) && Distinct(gone) && forall i | 0 <= i < |gone| :: gone[i] !in active
    requires cache != [] && Export(cache, history, active).Some? && NewHistory(cache, history, gone).Some?
    ensures SameTotals(Export(cache, history, active).value,
                       Export(RemoveAll(cache, gone), NewHistory(cache, history, gone).value, active))
            <==> RemoveAll(cache, gone) != [] || TotalsNothing(Export(cache, history, active).value)
  {
    var before := Export(cache, history, active).value;
    var after := Export(RemoveAll(cache, gone), NewHistory(cache, history, gone).value, active);
    if RemoveAll(cache, gone) != [] {
      FoldKeepsExport(cache, history, gone, active);
    } else {
      assert after == Some([]);
      forall name, series ensures OfMetrics(after.value, name, series) == NOTHING {
      }
      if SameTotals(before, after) {
        forall name, series | name != MEAN ensures OfMetrics(before, name, series) == NOTHING {
          assert OfMetrics(after.value, name, series) == OfMetrics(before, name, series);
        }
      }
    }
  }

  lemma FoldKeepsTop(cache: seq<Entry>, history: seq<Metric>, gone: seq<int>, names: set<string>)
    requires Tidy(cache, history) && NewHistory(cache, history, gone).Some?
    requires Within(cache, history, names) && Tops(cache, history, names)
    ensures var rest := RemoveAll(cache, gone);
            var h := NewHistory(cache, history, gone).value;
            Tidy(rest, h) && Within(rest, h, names) && Tops(rest, h, names)
  {
    var rest := RemoveAll(cache, gone);
    var h := NewHistory(cache, history, gone).value;
    NewHistoryNames(cache, history, gone, names);
    RestIsDistinct(cache, gone);
    forall i | 0 <= i < |rest| ensures NameSet(rest[i].metrics) <= names && DistinctNames(rest[i].metrics) {
      var j := RestAt(cache, gone, i);
    }
    if NameSet(history) != names {
      var j :| 0 <= j < |cache| && NameSet(cache[j].metrics) == names;
      if cache[j].id !in gone {
        var i := RestHas(cache, gone, j);
        assert NameSet(rest[i].metrics) == names;
      }
    }
  }

  lemma {:induction false} RestIsDistinct(cache: seq<Entry>, gone: seq<int>)
    requires DistinctIds(cache)
    ensures DistinctIds(RemoveAll(cache, gone))
    decreases |gone|
  {
    if gone != [] {
      RemoveShrinks(cache, gone[0]);
      RestIsDistinct(Remove(cache, gone[0]), gone[1..]);
    }
  }

  // ---------------------------------------------------------------------------------------------
  // Two levels
  // ---------------------------------------------------------------------------------------------

  /** The flat sum over every endpoint of every reading. */
  function OfReadings(readings: seq<Reading>, name: string, series: string): Tally {
    if readings == [] then NOTHING
    else
      var n := |readings| - 1;
      Join(OfLists(readings[n].endpoints, name, series), OfReadings(readings[..n], name, series))
  }

  /** The instances that are read again, the last first. */
  function Read(readings: seq<Reading>): seq<int> {
    if readings == [] then []
    else
      var n := |readings| - 1;
      (if readings[n].endpoints == [] then [] else [readings[n].id]) + Read(readings[..n])
  }

  predicate DistinctReadings(readings: seq<Reading>) {
    forall i, j | 0 <= i < j < |readings| :: readings[i].id != readings[j].id
  }

  lemma {:induction false} SetThenRemove(cache: seq<Entry>, e: Entry, id: int)
    requires e.id != id
    ensures Remove(SetEntry(cache, e), id) == SetEntry(Remove(cache, id), e)
    decreases |cache|
  {
    if cache != [] {
      SetThenRemove(cache[1..], e, id);
      if cache[0].id == e.id {
        assert SetEntry(cache, e)[1..] == cache[1..];
      } else {
        assert SetEntry(cache, e)[1..] == SetEntry(cache[1..], e);
      }
      if cache[0].id != id {
        assert Remove(cache, id)[1..] == Remove(cache[1..], id);
      }
    }
  }

  lemma {:induction false} ReadThenRemove(cache: seq<Entry>, readings: seq<Reading>, id: int)
    requires forall i | 0 <= i < |readings| :: readings[i].id != id
    requires ByInstance(cache, readings).Some?
    ensures ByInstance(Remove(cache, id), readings) == Some(Remove(ByInstance(cache, readings).value, id))
    decreases |readings|
  {
    if readings != [] {
      var n := |readings| - 1;
      ReadThenRemove(cache, readings[..n], id);
      if readings[n].endpoints != [] {
        SetThenRemove(ByInstance(cache, readings[..n]).value, Entry(readings[n].id, Aggregate(readings[n].endpoints).value), id);
      }
    }
  }

  /** The tally of a freshly aggregated active instance is the flat sum over its endpoints. */
  lemma FreshEntryTally(id: int, endpoints: seq<seq<Metric>>, active: set<int>, name: string, series: string)
    requires endpoints != [] && Aggregate(endpoints).Some? && name != MEAN && id in active
    ensures OfEntry(Entry(id, Aggregate(endpoints).value), active, name, series) == OfLists(endpoints, name, series)
  {
    AggregateConserves(endpoints, name, series);
    MaskOther(Aggregate(endpoints).value, false, name, series);
  }

  lemma ReadLast(cache: seq<Entry>, readings: seq<Reading>)
    requires readings != []
    ensures var n := |readings| - 1;
            RemoveAll(cache, Read(readings)) ==
            if readings[n].endpoints == [] then RemoveAll(cache, Read(readings[..n]))
            else RemoveAll(Remove(cache, readings[n].id), Read(readings[..n]))
  {
    var n := |readings| - 1;
    if readings[n].endpoints == [] {
      assert Read(readings) == Read(readings[..n]);
    } else {
      assert Read(readings)[1..] == Read(readings[..n]);
    }
  }

  lemma ByInstanceLast(cache: seq<Entry>, readings: seq<Reading>)
    requires readings != [] && DistinctReadings(readings) && ByInstance(cache, readings).Some?
    ensures var last := readings[|readings| - 1];
            var before := readings[..|readings| - 1];
            && ByInstance(cache, before).Some?
            && (last.endpoints == [] ==> ByInstance(cache, readings) == ByInstance(cache, before))
            && (last.endpoints != [] ==>
                  && Aggregate(last.endpoints).Some?
                  && ByInstance(cache, readings).value == SetEntry(ByInstance(cache, before).value, Entry(last.id, Aggregate(last.endpoints).value))
                  && ByInstance(Remove(cache, last.id), before) == Some(Remove(ByInstance(cache, before).value, last.id)))
  {
    var n := |readings| - 1;
    if readings[n].endpoints != [] {
      ReadThenRemove(cache, readings[..n], readings[n].id);
    }
  }

  /** The last reading replaces its instance in the cache. */
  lemma SetFresh(cache: seq<Entry>, last: Reading, active: set<int>, name: string, series: string)
    requires last.endpoints != [] && Aggregate(last.endpoints).Some? && last.id in active && name != MEAN
    ensures OfCache(SetEntry(cache, Entry(last.id, Aggregate(last.endpoints).value)), active, name, series) ==
            Join(OfLists(last.endpoints, name, series), OfCache(Remove(cache, last.id), active, name, series))
  {
    SetTally(cache, Entry(last.id, Aggregate(last.endpoints).value), active, name, series);
    FreshEntryTally(last.id, last.endpoints, active, name, series);
  }

  lemma OfReadingsLast(readings: seq<Reading>, name: string, series: string)
    requires readings != []
    ensures var n := |readings| - 1;
            OfReadings(readings, name, series) ==
            if readings[n].endpoints == [] then OfReadings(readings[..n], name, series)
            else Join(OfLists(readings[n].endpoints, name, series), OfReadings(readings[..n], name, series))
  {
    var n := |readings| - 1;
    if readings[n].endpoints == [] {
      assert OfLists(readings[n].endpoints, name, series) == NOTHING;
      JoinLaws(OfReadings(readings[..n], name, series), NOTHING, NOTHING);
    }
  }

  lemma Assemble(whole: Tally, last: Tally, before: Tally, readings: Tally, rest: Tally, cached: Tally)
    requires whole == Join(last, cached) && cached == Join(before, rest) && readings == Join(last, before)
    ensures whole == Join(readings, rest)
  {
    JoinLaws(last, before, rest);
  }

  lemma {:induction false} ReadingsTally(cache: seq<Entry>, readings: seq<Reading>, active: set<int>, name: string, series: string)
    requires DistinctReadings(readings) && (forall i | 0 <= i < |readings| :: readings[i].id in active) && name != MEAN
    requires ByInstance(cache, readings).Some?
    ensures OfCache(ByInstance(cache, readings).value, active, name, series) ==
            Join(OfReadings(readings, name, series), OfCache(RemoveAll(cache, Read(readings)), active, name, series))
    decreases |readings|
  {
    if readings == [] {
      JoinLaws(OfCache(cache, active, name, series), NOTHING, NOTHING);
    } else if readings[|readings| - 1].endpoints == [] {
      SkippedReading(cache, readings, active, name, series);
      ReadingsTally(cache, readings[..|readings| - 1], active, name, series);
    } else {
      var id := readings[|readings| - 1].id;
      ByInstanceLast(cache, readings);
      ReadingsTally(Remove(cache, id), readings[..|readings| - 1], active, name, series);
      LastReading(cache, readings, active, name, series);
    }
  }

  lemma LastReading(cache: seq<Entry>, readings: seq<Reading>, active: set<int>, name: string, series: string)
    requires readings != [] && DistinctReadings(readings) && readings[|readings| - 1].id in active && name != MEAN
    requires ByInstance(cache, readings).Some? && readings[|readings| - 1].endpoints != []
    requires var rest := Remove(cache, readings[|readings| - 1].id);
             var before := readings[..|readings| - 1];
             && ByInstance(rest, before).Some?
             && OfCache(ByInstance(rest, before).value, active, name, series) ==
                Join(OfReadings(before, name, series), OfCache(RemoveAll(rest, Read(before)), active, name, series))
    ensures OfCache(ByInstance(cache, readings).value, active, name, series) ==
            Join(OfReadings(readings, name, series), OfCache(RemoveAll(cache, Read(readings)), active, name, series))
  {
    var last := readings[|readings| - 1];
    var before := readings[..|readings| - 1];
    ByInstanceLast(cache, readings);
    ReadLast(cache, readings);
    OfReadingsLast(readings, name, series);
    SetFresh(ByInstance(cache, before).value, last, active, name, series);
    Assemble(OfCache(ByInstance(cache, readings).value, active, name, series), OfLists(last.endpoints, name, series),
             OfReadings(before, name, series), OfReadings(readings, name, series),
             OfCache(RemoveAll(cache, Read(readings)), active, name, series),
             OfCache(Remove(ByInstance(cache, before).value, last.id), active, name, series));
  }

  lemma SkippedReading(cache: seq<Entry>, readings: seq<Reading>, active: set<int>, name: string, series: string)
    requires readings != [] && readings[|readings| - 1].endpoints == []
    ensures var before := readings[..|readings| - 1];
            && ByInstance(cache, readings) == ByInstance(cache, before)
            && OfReadings(readings, name, series) == OfReadings(before, name, series)
            && RemoveAll(cache, Read(readings)) == RemoveAll(cache, Read(before))
  {
    ReadLast(cache, readings);
    OfReadingsLast(readings, name, series);
  }

  /**
   Per endpoint, per instance, then over all: the exported totals are the flat sums over all endpoints
   read, plus the cached instances that were not read again and the history.
   */
  lemma TwoLevelsAreFlat(cache: seq<Entry>, history: seq<Metric>, readings: seq<Reading>, active: set<int>, name: string, series: string)
    requires DistinctReadings(readings) && (forall i | 0 <= i < |readings| :: readings[i].id in active) && name != MEAN
    requires ByInstance(cache, readings).Some? && ByInstance(cache, readings).value != []
    requires Export(ByInstance(cache, readings).value, history, active).Some?
    ensures OfMetrics(Export(ByInstance(cache, readings).value, history, active).value, name, series) ==
            Join(Join(OfReadings(readings, name, series), OfCache(RemoveAll(cache, Read(readings)), active, name, series)),
                 OfMetrics(history, name, series))
  {
    var after := ByInstance(cache, readings).value;
    AggregateConserves(Masked(after, active) + [history], name, series);
    OfListsSnoc(Masked(after, active), history, name, series);
    ReadingsTally(cache, readings, active, name, series);
  }

  // ---------------------------------------------------------------------------------------------
  // The collector
  // ---------------------------------------------------------------------------------------------

  lemma {:induction false} SetKeepsTidy(cache: seq<Entry>, e: Entry)
    requires Tidy(cache, []) && DistinctNames(e.metrics)
    ensures Tidy(SetEntry(cache, e), [])
    ensures forall x :: Has(SetEntry(cache, e), x) <==> Has(cache, x) || x == e.id
    decreases |cache|
  {
    var after := SetEntry(cache, e);
    if cache == [] || cache[0].id == e.id {
      assert after[0].id == e.id;
      forall x ensures Has(after, x) <==> Has(cache, x) || x == e.id {
        if x != e.id {
          HasTail(after, x);
          if cache != [] { HasTail(cache, x); assert after[1..] == cache[1..]; }
        }
      }
    } else {
      SetKeepsTidy(cache[1..], e);
      assert after[1..] == SetEntry(cache[1..], e);
      assert after[0].id == cache[0].id;
      forall x ensures Has(after, x) <==> Has(cache, x) || x == e.id {
        if x != cache[0].id {
          HasTail(after, x);
          HasTail(cache, x);
        }
      }
      assert !Has(cache[1..], cache[0].id);
      assert !Has(after[1..], cache[0].id);
      forall j | 0 < j < |after| ensures after[j].id != after[0].id {
        assert after[j] == after[1..][j - 1];
      }
      forall j | 0 < j < |after| ensures DistinctNames(after[j].metrics) {
        assert after[j] == after[1..][j - 1];
      }
      forall i, j | 0 < i < j < |after| ensures after[i].id != after[j].id {
        assert after[i] == after[1..][i - 1] && after[j] == after[1..][j - 1];
      }
    }
  }

  class MetricsCollector {
    var cache: seq<Entry>
    var history: seq<Metric>

    ghost predicate Valid()
      reads this
    {
      Tidy(cache, history)
    }

    constructor ()
      ensures Valid() && cache == [] && history == []
    {
      cache, history := [], [];
    }

    /** A failed lookup leaves the instances aggregated so far in the cache. */
    method AggregateMetricsByInstance(readings: seq<Reading>) returns (ok: bool)
      requires Valid()
      modifies this`cache
      ensures Valid() && (ok <==> ByInstance(old(cache), readings).Some?)
      ensures ok ==> cache == ByInstance(old(cache), readings).value
    {
      for i := 0 to |readings|
        invariant Valid() && ByInstance(old(cache), readings[..i]) == Some(cache)
      {
        assert readings[..i + 1][..i] == readings[..i];
        if readings[i].endpoints != [] {
          var one := AggregateMetricsCommon(readings[i].endpoints);
          if one == None {
            StaysFailed(old(cache), readings, i + 1);
            return false;
          }
          AggregateNames(readings[i].endpoints);
          SetKeepsTidy(cache, Entry(readings[i].id, one.value));
          cache := SetEntry(cache, Entry(readings[i].id, one.value));
        }
      }
      assert readings[..|readings|] == readings;
      ok := true;
    }

    method AggregateMetricsAllInstance(active: set<int>) returns (exported: Option<seq<Metric>>)
      ensures exported == Export(cache, history, active)
    {
      if cache == [] {
        return Some([]);
      }
      var lists := [];
      MaskedAt(cache, active, 0);
      for i := 0 to |cache|
        invariant |Masked(cache, active)| == |cache| && lists == Masked(cache, active)[..i]
      {
        var ms := MaskGauges(cache[i].metrics, cache[i].id !in active);
        MaskedAt(cache, active, i);
        lists := lists + [ms];
      }
      assert Masked(cache, active)[..|cache|] == Masked(cache, active);
      exported := AggregateMetricsCommon(lists + [history]);
    }

    /** The ids of the unavailable pool, each once; if the lookup fails nothing is changed. */
    method ClearInactiveMetrics(unavailable: seq<int>) returns (ok: bool)
      requires Valid()
      modifies this
      ensures Valid() && (ok <==> NewHistory(old(cache), old(history), unavailable).Some?)
      ensures ok ==> history == NewHistory(old(cache), old(history), unavailable).value
      ensures cache == if ok then RemoveAll(old(cache), unavailable) else old(cache)
      ensures !ok ==> history == old(history)
    {
      var folded := FoldHistory(unavailable);
      if folded == None {
        return false;
      }
      FoldingIsTidy(cache, history, unavailable);
      history := folded.value;
      cache := RemoveAll(cache, unavailable);
      ok := true;
    }

    /** The history with the unavailable instances folded in. */
    method FoldHistory(unavailable: seq<int>) returns (folded: Option<seq<Metric>>)
      ensures folded == NewHistory(cache, history, unavailable)
    {
      var lists := FoldedLists(unavailable);
      folded := AggregateMetricsCommon(lists + [history]);
    }

    method FoldedLists(unavailable: seq<int>) returns (lists: seq<seq<Metric>>)
      ensures lists == Folded(cache, unavailable)
    {
      lists := [];
      for i := 0 to |unavailable|
        invariant lists + Folded(cache, unavailable[i..]) == Folded(cache, unavailable)
      {
        assert unavailable[i..][0] == unavailable[i] && unavailable[i..][1..] == unavailable[i + 1..];
        if Has(cache, unavailable[i]) {
          var ms := MaskGauges(Lookup(cache, unavailable[i]), true);
          lists := lists + [ms];
        }
      }
      assert unavailable[|unavailable|..] == [];
    }

    method MaskGauges(ms: seq<Metric>, inactive: bool) returns (masked: seq<Metric>)
      ensures masked == Mask(ms, inactive)
    {
      masked := [];
      for i := 0 to |ms|
        invariant masked == Mask(ms, inactive)[..i]
      {
        masked := masked + [if inactive && ms[i].kind == Gauge then Cleared(ms[i]) else ms[i]];
      }
    }
  }

  lemma FoldingIsTidy(cache: seq<Entry>, history: seq<Metric>, gone: seq<int>)
    requires Tidy(cache, history) && NewHistory(cache, history, gone).Some?
    ensures Tidy(RemoveAll(cache, gone), NewHistory(cache, history, gone).value)
  {
    NamesAreWithin(cache, history);
    NewHistoryNames(cache, history, gone, AllNames(cache, history));
    RestIsTidy(cache, gone);
  }

  lemma {:induction false} StaysFailed(cache: seq<Entry>, readings: seq<Reading>, n: nat)
    requires n <= |readings| && ByInstance(cache, readings[..n]) == None
    ensures ByInstance(cache, readings) == None
    decreases |readings| - n
  {
    if n < |readings| {
      assert readings[..n + 1][..n] == readings[..n];
      StaysFailed(cache, readings, n + 1);
    } else {
      assert readings[..n] == readings;
    }
  }

  function AllNames(cache: seq<Entry>, history: seq<Metric>): set<string> {
    if cache == [] then NameSet(history) else NameSet(cache[0].metrics) + AllNames(cache[1..], history)
  }

  lemma {:induction false} NamesAreWithin(cache: seq<Entry>, history: seq<Metric>)
    ensures Within(cache, history, AllNames(cache, history))
    decreases |cache|
  {
    if cache != [] {
      NamesAreWithin(cache[1..], history);
      forall i | 0 <= i < |cache| ensures NameSet(cache[i].metrics) <= AllNames(cache, history) {
        if i > 0 { assert cache[i] == cache[1..][i - 1]; }
      }
    }
  }

  lemma RestIsTidy(cache: seq<Entry>, gone: seq<int>)
    requires Tidy(cache, [])
    ensures Tidy(RemoveAll(cache, gone), [])
  {
    RestIsDistinct(cache, gone);
    var rest := RemoveAll(cache, gone);
    forall i | 0 <= i < |rest| ensures DistinctNames(rest[i].metrics) {
      var j := RestAt(cache, gone, i);
    }
  }
}
