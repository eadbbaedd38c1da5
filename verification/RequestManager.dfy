/**
 The coordinator's request bookkeeping, with the mutable workload objects its dictionary shares, and the
 handler that turns allocations and releases into load changes. One handler call is shown here without
 interruption; WorkloadRuns interleaves many.
 */
module RequestManager {
  import opened Prelude
  import opened CoordinatorPools
  import Ids = RequestIds
  import Runs = WorkloadRuns

  type ReqKey = Runs.ReqKey

  /** The handler's own actions; preparing a resource is the router's. */
  type Action = a: Runs.Action | a != Runs.Prepare witness Runs.Allocate

  class Workload {
    var kv: real
    var tokens: real

    constructor (kv: real, tokens: real)
      ensures this.kv == kv && this.tokens == tokens
    {
      this.kv := kv;
      this.tokens := tokens;
    }

    ghost function Load(): Load
      reads this
    {
      CoordinatorPools.Load(kv, tokens)
    }
  }

  /** One uninterrupted handler call on the values of the records: the change, and the records after it. */
  function Handled(records: map<ReqKey, Load>, key: ReqKey, action: Action, length: nat)
    : (Option<Load>, map<ReqKey, Load>)
  {
    if action == Runs.Allocate then
      if key in records then (None, records)
      else (Some(Runs.Demand(key.role, length)), records[key := Runs.Demand(key.role, length)])
    else if key !in records then (None, records)
    else
      var left := Runs.Emptied(action, records[key]);
      (Some(Runs.Amount(action, records[key])),
       if Runs.Rest(action, left) <= 0.0 then records - {key} else records[key := left])
  }

  /** The values of the records of a world of tasks. */
  function ValuesOf(w: Runs.World): map<ReqKey, Load>
    requires forall k :: k in w.records ==> w.records[k] < |w.objects|
  {
    map k | k in w.records :: w.objects[w.records[k]].load
  }

  class RequestManager {
    var requests: set<string>
    var workloads: map<ReqKey, Workload>
    var counter: nat
    var lastTimestamp: nat

    /** No two records share an object. */
    ghost predicate Valid()
      reads this
    {
      forall k, l :: k in workloads && l in workloads && k != l ==> workloads[k] != workloads[l]
    }

    ghost function Values(): map<ReqKey, Load>
      reads this, workloads.Values
    {
      map k | k in workloads :: workloads[k].Load()
    }

    constructor ()
      ensures Valid() && requests == {} && workloads == map[]
      ensures Ids.Clock(lastTimestamp, counter) == Ids.START
    {
      requests, workloads := {}, map[];
      counter, lastTimestamp := 0, 0;
    }

    method GenerateRequestId(now: nat, suffix: string) returns (id: string)
      modifies this`counter, this`lastTimestamp
      ensures Ids.Clock(lastTimestamp, counter) == Ids.Tick(old(Ids.Clock(lastTimestamp, counter)), now)
      ensures id == Ids.Id(lastTimestamp, counter, suffix)
    {
      if now == lastTimestamp {
        counter := counter + 1;
      } else {
        counter := 0;
        lastTimestamp := now;
      }
      id := Ids.Decimal(now) + Ids.Padded(counter) + suffix;
    }

    method AddReqInfo(request: string) returns (ok: bool)
      modifies this`requests
      ensures ok <==> request !in old(requests)
      ensures requests == old(requests) + {request}
    {
      ok := request !in requests;
      requests := requests + {request};
    }

    /** A known request goes away with all its records; for an unknown one nothing happens. */
    method DelReqInfo(request: string) returns (ok: bool)
      requires Valid()
      modifies this`requests, this`workloads
      ensures Valid() && (ok <==> request in old(requests)) && requests == old(requests) - {request}
      ensures workloads == if ok then map k | k in old(workloads) && k.request != request :: old(workloads)[k] else old(workloads)
    {
      if request !in requests {
        return false;
      }
      requests := requests - {request};
      workloads := map k | k in workloads && k.request != request :: workloads[k];
      ok := true;
    }

    method AddReqWorkload(key: ReqKey, workload: Workload) returns (ok: bool)
      requires Valid() && workload !in workloads.Values
      modifies this`workloads
      ensures Valid() && (ok <==> key !in old(workloads))
      ensures workloads == if ok then old(workloads)[key := workload] else old(workloads)
    {
      ok := key !in workloads;
      if ok {
        workloads := workloads[key := workload];
      }
    }

    method GetReqWorkload(key: ReqKey) returns (workload: Workload?)
      ensures workload == if key in workloads then workloads[key] else null
    {
      workload := if key in workloads then workloads[key] else null;
    }

    method UpdateReqWorkload(key: ReqKey, workload: Workload) returns (ok: bool)
      requires Valid() && forall k :: k in workloads && k != key ==> workloads[k] != workload
      modifies this`workloads
      ensures Valid() && (ok <==> key in old(workloads))
      ensures workloads == if ok then old(workloads)[key := workload] else old(workloads)
    {
      ok := key in workloads;
      if ok {
        workloads := workloads[key := workload];
      }
    }

    method DelReqWorkload(key: ReqKey) returns (ok: bool)
      requires Valid()
      modifies this`workloads
      ensures Valid() && (ok <==> key in old(workloads))
      ensures workloads == old(workloads) - {key}
    {
      ok := key in workloads;
      workloads := workloads - {key};
    }
  }

  class WorkloadActionHandler {
    const manager: RequestManager

    constructor (manager: RequestManager)
      ensures this.manager == manager
    {
      this.manager := manager;
    }

    /** A new allocation hands out the recorded object itself. */
    method Allocate(key: ReqKey, length: nat) returns (change: Workload?)
      requires manager.Valid()
      modifies manager`workloads
      ensures manager.Valid()
      ensures change == null <==> key in old(manager.workloads)
      ensures manager.workloads == if change == null then old(manager.workloads) else old(manager.workloads)[key := change]
      ensures change != null ==> fresh(change) && change.Load() == Runs.Demand(key.role, length)
    {
      var demand := Runs.Demand(key.role, length);
      var workload := new Workload(demand.kv, demand.tokens);
      var added := manager.AddReqWorkload(key, workload);
      change := if added then workload else null;
    }

    /** A release empties one field of the shared object and hands out a new one. */
    method Release(key: ReqKey, action: Action) returns (change: Workload?)
      requires manager.Valid() && action != Runs.Allocate
      modifies manager`workloads, manager.workloads.Values
      ensures manager.Valid()
      ensures change == null <==> key !in old(manager.workloads)
      ensures forall k :: k in old(manager.workloads) && k != key ==> unchanged(old(manager.workloads)[k])
      ensures change == null ==> manager.workloads == old(manager.workloads)
      ensures change != null ==>
        var shared := old(manager.workloads)[key];
        && fresh(change) && change.Load() == Runs.Amount(action, old(shared.Load()))
        && shared.Load() == Runs.Emptied(action, old(shared.Load()))
        && manager.workloads == if Runs.Rest(action, shared.Load()) <= 0.0 then old(manager.workloads) - {key} else old(manager.workloads)
    {
      var current := manager.GetReqWorkload(key);
      if current == null {
        return null;
      }
      if action == Runs.ReleaseKv {
        change := new Workload(-current.kv, 0.0);
        current.kv := 0.0;
      } else {
        change := new Workload(0.0, -current.tokens);
        current.tokens := 0.0;
      }
      var _ := manager.UpdateReqWorkload(key, current);
      assert manager.workloads == old(manager.workloads);
      if (if action == Runs.ReleaseKv then current.tokens else current.kv) <= 0.0 {
        var _ := manager.DelReqWorkload(key);
      }
    }

    method ComputeAndUpdate(key: ReqKey, action: Action, length: nat) returns (change: Workload?)
      requires manager.Valid()
      modifies manager`workloads, manager.workloads.Values
      ensures manager.Valid()
      ensures (if change == null then None else Some(change.Load()), manager.Values()) == Handled(old(manager.Values()), key, action, length)
    {
      ghost var records := manager.Values();
      if action == Runs.Allocate {
        change := Allocate(key, length);
      } else {
        change := Release(key, action);
      }
      assert manager.Values() == Handled(records, key, action, length).1;
    }
  }

  /** A task of the interleaved system that runs from its start to its result with nothing in between. */
  function Alone(w: Runs.World, key: ReqKey, place: Runs.Place, action: Action, length: nat): Runs.World {
    var i := |w.tasks|;
    var a := Runs.Take(Runs.Take(w, Runs.Begin(key, place, action, length)), Runs.Advance(i));
    if a.tasks[i].phase.Found? then AfterFound(Runs.Take(a, Runs.Advance(i)), i) else a
  }

  function AfterFound(e: Runs.World, i: nat): Runs.World
    requires i < |e.tasks|
  {
    var b := Runs.Take(e, Runs.Advance(i));
    if b.tasks[i].phase.Deleting? then Runs.Take(b, Runs.Advance(i)) else b
  }

  /** World v holds the values, and its task i the change, of an uninterrupted call on world w. */
  predicate Agrees(w: Runs.World, v: Runs.World, i: nat, key: ReqKey, action: Action, length: nat)
    requires forall k :: k in w.records ==> w.records[k] < |w.objects|
  {
    var (change, records) := Handled(ValuesOf(w), key, action, length);
    && i < |v.tasks|
    && (forall k :: k in v.records ==> v.records[k] < |v.objects|)
    && ValuesOf(v) == records
    && (change == None <==> v.tasks[i].phase == Runs.Finished(None))
    && (change != None ==> v.tasks[i].phase.Returned? && Runs.ValueOf(v, v.tasks[i].phase.change) == change.value)
  }

  /**
   The interleaved system run one task at a time is the handler: the same change comes back, and the
   records have the same values.
   */
  lemma AloneIsHandled(w: Runs.World, key: ReqKey, place: Runs.Place, action: Action, length: nat)
    requires Runs.WellFormed(w)
    ensures Agrees(w, Alone(w, key, place, action, length), |w.tasks|, key, action, length)
  {
    if action == Runs.Allocate {
      AloneAllocates(w, key, place, length);
    } else if key in w.records {
      AloneReleases(w, key, place, action, length);
    } else {
      AloneFindsNothing(w, key, place, action, length);
    }
  }

  lemma AloneAllocates(w: Runs.World, key: ReqKey, place: Runs.Place, length: nat)
    requires Runs.WellFormed(w)
    ensures Agrees(w, Alone(w, key, place, Runs.Allocate, length), |w.tasks|, key, Runs.Allocate, length)
  {
    var t := Runs.Task(key, place, Runs.Allocate, Runs.Demand(key.role, length), Runs.Started);
    var b := Runs.Take(w, Runs.Begin(key, place, Runs.Allocate, length));
    assert b.tasks[|w.tasks|] == t;
    var v := Runs.Take(b, Runs.Advance(|w.tasks|));
    assert Alone(w, key, place, Runs.Allocate, length) == v;
    if key in w.records {
      assert v.records == w.records && v.objects == w.objects;
    } else {
      assert v.records == w.records[key := |w.objects|];
      assert v.objects == w.objects + [Runs.Object(key, place, t.demand)];
    }
    assert ValuesOf(v) == Handled(ValuesOf(w), key, Runs.Allocate, length).1;
  }

  lemma AloneFindsNothing(w: Runs.World, key: ReqKey, place: Runs.Place, action: Action, length: nat)
    requires Runs.WellFormed(w) && action != Runs.Allocate && key !in w.records
    ensures Agrees(w, Alone(w, key, place, action, length), |w.tasks|, key, action, length)
  {
    var b := Runs.Take(w, Runs.Begin(key, place, action, length));
    assert b.tasks[|w.tasks|].phase == Runs.Started;
    var v := Runs.Take(b, Runs.Advance(|w.tasks|));
    assert v.records == w.records && v.objects == w.objects;
  }

  function Emptying(w: Runs.World, t: Runs.Task, o: nat): Runs.World
    requires o < |w.objects|
  {
    var l := w.objects[o].load;
    w.(objects := w.objects[o := w.objects[o].(load := Runs.Emptied(t.action, l))],
       tasks := w.tasks + [t.(phase := Runs.Zeroed(o, Runs.Amount(t.action, l)))])
  }

  lemma FoundAndEmptied(w: Runs.World, key: ReqKey, place: Runs.Place, action: Action, length: nat)
    requires Runs.WellFormed(w) && action != Runs.Allocate && key in w.records
    ensures var t := Runs.Task(key, place, action, Runs.Demand(key.role, length), Runs.Started);
            var i := |w.tasks|;
            var a := Runs.Take(Runs.Take(w, Runs.Begin(key, place, action, length)), Runs.Advance(i));
            && a == w.(tasks := w.tasks + [t.(phase := Runs.Found(w.records[key]))])
            && Runs.Take(a, Runs.Advance(i)) == Emptying(w, t, w.records[key])
  {
    var t := Runs.Task(key, place, action, Runs.Demand(key.role, length), Runs.Started);
    var b := Runs.Take(w, Runs.Begin(key, place, action, length));
    assert b.tasks[|w.tasks|] == t;
    var a := Runs.Take(b, Runs.Advance(|w.tasks|));
    assert a.tasks == w.tasks + [t.(phase := Runs.Found(w.records[key]))];
    var e := Runs.Take(a, Runs.Advance(|w.tasks|));
    assert e.tasks == Emptying(w, t, w.records[key]).tasks;
  }

  /** From the emptied object on: the record is kept or deleted by what is left in it. */
  lemma StoredAndSettled(w: Runs.World, t: Runs.Task)
    requires Runs.WellFormed(w) && !Runs.Creates(t.action) && t.key in w.records
    ensures var o := w.records[t.key];
            var i := |w.tasks|;
            var e := Emptying(w, t, o);
            var v := AfterFound(e, i);
            && v.objects == e.objects && |v.tasks| == i + 1
            && v.records == (if Runs.Rest(t.action, e.objects[o].load) <= 0.0 then w.records - {t.key} else w.records)
            && v.tasks[i].phase == Runs.Returned(o, Runs.Fixed(Runs.Amount(t.action, w.objects[o].load)))
  {
    var e := Emptying(w, t, w.records[t.key]);
    assert e.tasks[|w.tasks|].key == t.key;
    assert w.records[t.key := w.records[t.key]] == w.records;
  }

  lemma EmptiedValues(w: Runs.World, t: Runs.Task)
    requires Runs.WellFormed(w) && t.key in w.records
    ensures var e := Emptying(w, t, w.records[t.key]);
            ValuesOf(e) == ValuesOf(w)[t.key := Runs.Emptied(t.action, ValuesOf(w)[t.key])]
  {
    var e := Emptying(w, t, w.records[t.key]);
    forall k | k in w.records ensures k != t.key ==> e.objects[w.records[k]] == w.objects[w.records[k]] {
      assert w.objects[w.records[k]].key == k;
    }
  }

  lemma ReleaseAgrees(w: Runs.World, t: Runs.Task, v: Runs.World, length: nat)
    requires Runs.WellFormed(w) && !Runs.Creates(t.action) && t.key in w.records
    requires var o := w.records[t.key];
             var e := Emptying(w, t, o);
             && v.objects == e.objects && |v.tasks| == |w.tasks| + 1
             && v.records == (if Runs.Rest(t.action, e.objects[o].load) <= 0.0 then w.records - {t.key} else w.records)
             && v.tasks[|w.tasks|].phase == Runs.Returned(o, Runs.Fixed(Runs.Amount(t.action, w.objects[o].load)))
    ensures Agrees(w, v, |w.tasks|, t.key, t.action, length)
  {
    EmptiedValues(w, t);
    var e := Emptying(w, t, w.records[t.key]);
    assert ValuesOf(v) == if t.key in v.records then ValuesOf(e) else ValuesOf(e) - {t.key};
  }

  lemma AloneReleases(w: Runs.World, key: ReqKey, place: Runs.Place, action: Action, length: nat)
    requires Runs.WellFormed(w) && action != Runs.Allocate && key in w.records
    ensures Agrees(w, Alone(w, key, place, action, length), |w.tasks|, key, action, length)
  {
    var t := Runs.Task(key, place, action, Runs.Demand(key.role, length), Runs.Started);
    FoundAndEmptied(w, key, place, action, length);
    StoredAndSettled(w, t);
    ReleaseAgrees(w, t, AfterFound(Emptying(w, t, w.records[key]), |w.tasks|), length);
    assert Alone(w, key, place, action, length) == AfterFound(Emptying(w, t, w.records[key]), |w.tasks|);
  }
}
