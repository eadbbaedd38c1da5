/**
 The loads of the coordinator's pools while requests allocate and release and instances come and go. Every
 change a task applies reaches the endpoint it names while its instance is available and is lost while it
 is not, so an instance shows the loads of the interleaved runs, off by what it was off when it joined.
 */
module PoolLoads {
  import opened Prelude
  import opened EventPusher
  import opened CoordinatorPools
  import Runs = WorkloadRuns
  import Balance = WorkloadBalance
  import Records = WorkloadRecords

  type Pool = map<int, Instance>

  datatype Pools = Pools(available: Pool, unavailable: Pool)

  /** A step of a request's task, or something that happens to the pools. */
  datatype Move =
    | Work(step: Runs.Step)
    | Refresh(kind: EventKind, instances: seq<Instance>)
    | Switch(id: int, mode: Mode)
    | DeleteUnavailable(id: int)

  /** The pool has the instance, and the instance the endpoint. */
  predicate Pooled(pool: Pool, p: Runs.Place) {
    p.instance in pool && p.endpoint in Index(pool[p.instance].endpoints)
  }

  function LoadIn(pool: Pool, p: Runs.Place): Load
    requires Pooled(pool, p)
  {
    IndexScans(pool[p.instance].endpoints, p.endpoint);
    pool[p.instance].endpoints[Index(pool[p.instance].endpoints)[p.endpoint]].load
  }

  /** Applying a change reaches the available pool; no other step of a task touches the pools. */
  function PoolsAfterWork(pools: Pools, w: Runs.World, s: Runs.Step): Pools {
    if !(s.Advance? && s.i < |w.tasks|) then pools
    else
      var t := w.tasks[s.i];
      if t.phase.Started? && t.action == Runs.Prepare then
        pools.(available := Charged(pools.available, t.place.instance, t.place.endpoint, t.demand))
      else if t.phase.Returned? then
        pools.(available := Charged(pools.available, t.place.instance, t.place.endpoint, Runs.ValueOf(w, t.phase.change)))
      else pools
  }

  function PoolsAfter(pools: Pools, w: Runs.World, m: Move): Pools {
    match m
    case Work(s) => PoolsAfterWork(pools, w, s)
    case Refresh(kind, xs) =>
      var (a, u) := Refreshed(pools.available, pools.unavailable, kind, xs);
      Pools(a, u)
    case Switch(id, mode) =>
      var (a, u) := Switched(pools.available, pools.unavailable, id, mode);
      Pools(a, u)
    case DeleteUnavailable(id) => pools.(unavailable := pools.unavailable - {id})
  }

  function WorldAfter(w: Runs.World, m: Move): Runs.World {
    if m.Work? then Runs.Take(w, m.step) else w
  }

  function PoolsOf(pools: Pools, w: Runs.World, moves: seq<Move>): Pools
    decreases |moves|
  {
    if moves == [] then pools else PoolsOf(PoolsAfter(pools, w, moves[0]), WorldAfter(w, moves[0]), moves[1..])
  }

  /** The steps of tasks among the moves. */
  function WorkOf(moves: seq<Move>): seq<Runs.Step> {
    if moves == [] then []
    else (if moves[0].Work? then [moves[0].step] else []) + WorkOf(moves[1..])
  }

  /** The instance is available in every state. */
  predicate StaysAvailable(pools: Pools, w: Runs.World, moves: seq<Move>, id: int)
    decreases |moves|
  {
    id in pools.available &&
    (moves == [] || StaysAvailable(PoolsAfter(pools, w, moves[0]), WorldAfter(w, moves[0]), moves[1..], id))
  }

  ghost predicate Proper(pools: Pools) {
    pools.available.Keys !! pools.unavailable.Keys && Sound(pools.available) && Sound(pools.unavailable)
  }

  /** The pool shows the load that the runs have applied to the endpoint, off by a constant. */
  predicate Shows(pool: Pool, w: Runs.World, p: Runs.Place, off: Load) {
    Pooled(pool, p) && LoadIn(pool, p) == Plus(Runs.LoadAt(w, p), off)
  }

  lemma PlusCommutes(a: Load, b: Load, c: Load)
    ensures Plus(Plus(a, b), c) == Plus(Plus(a, c), b)
  {
  }

  /** A charge changes the load of the endpoint it names and of no other, and keeps all endpoints. */
  lemma ChargeHits(pool: Pool, q: Runs.Place, change: Load, p: Runs.Place)
    ensures var after := Charged(pool, q.instance, q.endpoint, change);
            && (Pooled(after, p) <==> Pooled(pool, p))
            && (Pooled(pool, p) ==> LoadIn(after, p) == if p == q then Plus(LoadIn(pool, p), change) else LoadIn(pool, p))
  {
    if Pooled(pool, q) && p.instance == q.instance {
      var es := pool[q.instance].endpoints;
      IndexScans(es, q.endpoint);
      var k := Index(es)[q.endpoint];
      IndexOfSameIds(es, es[k := Charge(es[k], change)]);
      IndexScans(es, p.endpoint);
    }
  }

  lemma ChargeShows(pool: Pool, w: Runs.World, q: Runs.Place, change: Load, p: Runs.Place, loads: map<Runs.Place, Load>, off: Load)
    requires Shows(pool, w, p, off) && loads == Runs.Apply(w, q, change).loads
    ensures Shows(Charged(pool, q.instance, q.endpoint, change), w.(loads := loads), p, off)
  {
    ChargeHits(pool, q, change, p);
    PlusCommutes(Runs.LoadAt(w, p), off, change);
  }

  lemma WorkShows(pools: Pools, w: Runs.World, s: Runs.Step, p: Runs.Place, off: Load)
    requires Shows(pools.available, w, p, off)
    ensures Shows(PoolsAfterWork(pools, w, s).available, Runs.Take(w, s), p, off)
  {
    if s.Advance? && s.i < |w.tasks| {
      var t := w.tasks[s.i];
      var v := Runs.Take(w, s);
      Balance.LoadsAfter(w, s.i);
      if t.phase.Started? && t.action == Runs.Prepare {
        ChargeShows(pools.available, w, t.place, t.demand, p, v.loads, off);
      } else if t.phase.Returned? {
        ChargeShows(pools.available, w, t.place, Runs.ValueOf(w, t.phase.change), p, v.loads, off);
      }
    }
  }

  lemma WorkKeepsProper(pools: Pools, w: Runs.World, s: Runs.Step)
    requires Proper(pools)
    ensures Proper(PoolsAfterWork(pools, w, s))
  {
    if s.Advance? && s.i < |w.tasks| {
      var t := w.tasks[s.i];
      ChargedKeeps(pools.available, t.place.instance, t.place.endpoint, t.demand);
      if t.phase.Returned? {
        ChargedKeeps(pools.available, t.place.instance, t.place.endpoint, Runs.ValueOf(w, t.phase.change));
      }
    }
  }

  /** No addition, removal or assignment of instances touches the entry of one that stays available. */
  lemma StayingKeepsEntry(pools: Pools, w: Runs.World, m: Move, id: int)
    requires Proper(pools) && !m.Work? && id in pools.available && id in PoolsAfter(pools, w, m).available
    ensures PoolsAfter(pools, w, m).available[id] == pools.available[id]
  {
    match m
    case Refresh(kind, xs) => RefreshIsSetAlgebra(pools.available, pools.unavailable, kind, xs);
    case Switch(i, mode) => SwitchKeepsKnown(pools.available, pools.unavailable, i, mode);
    case DeleteUnavailable(_) =>
  }

  lemma MoveKeepsProper(pools: Pools, w: Runs.World, m: Move)
    requires Proper(pools)
    ensures Proper(PoolsAfter(pools, w, m))
  {
    match m
    case Work(s) => WorkKeepsProper(pools, w, s);
    case Refresh(kind, xs) =>
      RefreshKeepsSound(pools.available, pools.unavailable, kind, xs);
      RefreshKeepsDisjoint(pools.available, pools.unavailable, kind, xs);
    case Switch(id, mode) => SwitchKeepsKnown(pools.available, pools.unavailable, id, mode);
    case DeleteUnavailable(_) =>
  }

  lemma RefreshKeepsDisjoint(available: Pool, unavailable: Pool, kind: EventKind, xs: seq<Instance>)
    requires available.Keys !! unavailable.Keys
    ensures var (a, u) := Refreshed(available, unavailable, kind, xs); a.Keys !! u.Keys
  {
    match kind
    case ADD =>
      JoinAllIsUnion(available, unavailable.Keys, xs);
      var a := JoinAll(available, unavailable.Keys, xs);
      forall i | i in a.Keys ensures i !in unavailable.Keys {
        if i in available { assert i in available.Keys; }
      }
    case DEL =>
    case SET =>
      var known := available.Keys + unavailable.Keys;
      JoinAllIsUnion(available - (known - IdsOf(xs)), (unavailable - (known - IdsOf(xs))).Keys, Filter(xs, IdsOf(xs) - known));
  }

  lemma MoveShows(pools: Pools, w: Runs.World, m: Move, p: Runs.Place, off: Load)
    requires Proper(pools) && Shows(pools.available, w, p, off)
    requires p.instance in PoolsAfter(pools, w, m).available
    ensures Shows(PoolsAfter(pools, w, m).available, WorldAfter(w, m), p, off)
  {
    if m.Work? { WorkShows(pools, w, m.step, p, off); } else { StayingKeepsEntry(pools, w, m, p.instance); }
  }

  lemma WorkOfTail(moves: seq<Move>)
    requires moves != []
    ensures WorkOf(moves) == if moves[0].Work? then [moves[0].step] + WorkOf(moves[1..]) else WorkOf(moves[1..])
  {
  }

  lemma WorldOfTail(w: Runs.World, moves: seq<Move>)
    requires moves != []
    ensures Runs.Run(WorldAfter(w, moves[0]), WorkOf(moves[1..])) == Runs.Run(w, WorkOf(moves))
  {
    WorkOfTail(moves);
    if moves[0].Work? {
      assert WorkOf(moves)[0] == moves[0].step && WorkOf(moves)[1..] == WorkOf(moves[1..]);
    }
  }

  lemma {:induction false} RunShows(pools: Pools, w: Runs.World, moves: seq<Move>, p: Runs.Place, off: Load)
    requires Proper(pools) && Shows(pools.available, w, p, off) && StaysAvailable(pools, w, moves, p.instance)
    ensures Shows(PoolsOf(pools, w, moves).available, Runs.Run(w, WorkOf(moves)), p, off)
    decreases |moves|
  {
    if moves != [] {
      var m := moves[0];
      MoveShows(pools, w, m, p, off);
      MoveKeepsProper(pools, w, m);
      RunShows(PoolsAfter(pools, w, m), WorldAfter(w, m), moves[1..], p, off);
      WorldOfTail(w, moves);
    }
  }

  lemma {:induction false} RunKeepsProper(pools: Pools, w: Runs.World, moves: seq<Move>)
    requires Proper(pools)
    ensures Proper(PoolsOf(pools, w, moves))
    decreases |moves|
  {
    if moves != [] {
      MoveKeepsProper(pools, w, moves[0]);
      RunKeepsProper(PoolsAfter(pools, w, moves[0]), WorldAfter(w, moves[0]), moves[1..]);
    }
  }

  // ---------------------------------------------------------------------------------------------
  // From the moment an instance joins
  // ---------------------------------------------------------------------------------------------

  /** The endpoint's load, with the changes on their way to it, is the records of its requests. */
  predicate Accounted(pool: Pool, w: Runs.World, p: Runs.Place) {
    Pooled(pool, p) && Plus(LoadIn(pool, p), Balance.Sum(Balance.PendingAt(w, p))) == Balance.Sum(Records.RecordsAt(w, p))
  }

  /** With no task running nothing is on its way. */
  lemma AccountedAtRest(pool: Pool, w: Runs.World, p: Runs.Place)
    requires Runs.AllOver(w) && Pooled(pool, p)
    ensures Accounted(pool, w, p) <==> LoadIn(pool, p) == Balance.Sum(Records.RecordsAt(w, p))
  {
    Records.NothingPending(w, p);
    Balance.PlusZero(LoadIn(pool, p));
  }

  /** No slip, one allocation per key and no dropped request. */
  ghost predicate Orderly(steps: seq<Runs.Step>) {
    Runs.AlwaysOnce(Runs.START, steps) && Balance.AlwaysHarmless(Runs.START, steps) && Records.NoDrops(steps)
  }

  lemma OffIsConstant(joined: Load, before: Load, now: Load, shown: Load, pending: Load, records: Load)
    requires shown == Plus(now, Balance.Minus(joined, before)) && Plus(now, pending) == records
    ensures Plus(shown, pending) == records <==> joined == before
  {
  }

  lemma Rejoined(a: Load, b: Load)
    ensures a == Plus(b, Balance.Minus(a, b))
  {
  }

  /**
   Whatever the pools are when the steps `before` have been taken: as long as the instance stays available,
   its endpoint is accounted for if and only if it then carried what the runs had applied to it.
   */
  lemma StayingIsAccountedIff(pools: Pools, before: seq<Runs.Step>, moves: seq<Move>, p: Runs.Place)
    requires Proper(pools) && Pooled(pools.available, p) && Orderly(before + WorkOf(moves))
    requires StaysAvailable(pools, Runs.Run(Runs.START, before), moves, p.instance)
    ensures var w := Runs.Run(Runs.START, before);
            var v := Runs.Run(w, WorkOf(moves));
            Accounted(PoolsOf(pools, w, moves).available, v, p) <==> LoadIn(pools.available, p) == Runs.LoadAt(w, p)
  {
    var w := Runs.Run(Runs.START, before);
    var v := Runs.Run(w, WorkOf(moves));
    var applied := Runs.LoadAt(w, p);
    var off := Balance.Minus(LoadIn(pools.available, p), applied);
    Rejoined(LoadIn(pools.available, p), applied);
    RunShows(pools, w, moves, p, off);
    Runs.RunSplits(Runs.START, before, WorkOf(moves));
    Records.LoadIsTheRecords(before + WorkOf(moves), p);
    OffIsConstant(LoadIn(pools.available, p), applied, Runs.LoadAt(v, p), LoadIn(PoolsOf(pools, w, moves).available, p),
                  Balance.Sum(Balance.PendingAt(v, p)), Balance.Sum(Records.RecordsAt(v, p)));
  }

  /** The coordinator starts without instances. */
  const NONE := Pools(map[], map[])

  /**
   From the start of the coordinator, while requests allocate and release and instances are added, removed,
   replaced and switched between the pools: an endpoint whose instance has stayed available since some
   moment carries, together with the changes on their way to it, the surviving records of its requests, if
   and only if at that moment it carried what had been applied to it. Every gathered load is the sum over
   the endpoints.
   */
  lemma EndpointLoadsAreRecords(past: seq<Move>, future: seq<Move>, p: Runs.Place)
    requires Orderly(WorkOf(past) + WorkOf(future))
    requires var joined := PoolsOf(NONE, Runs.START, past);
             Pooled(joined.available, p) && StaysAvailable(joined, Runs.Run(Runs.START, WorkOf(past)), future, p.instance)
    ensures var joined, w := PoolsOf(NONE, Runs.START, past), Runs.Run(Runs.START, WorkOf(past));
            var end, v := PoolsOf(joined, w, future), Runs.Run(w, WorkOf(future));
            && Sound(end.available)
            && (Accounted(end.available, v, p) <==> LoadIn(joined.available, p) == Runs.LoadAt(w, p))
  {
    RunKeepsProper(NONE, Runs.START, past);
    RunKeepsProper(PoolsOf(NONE, Runs.START, past), Runs.Run(Runs.START, WorkOf(past)), future);
    StayingIsAccountedIff(PoolsOf(NONE, Runs.START, past), WorkOf(past), future, p);
  }

  // ---------------------------------------------------------------------------------------------
  // Newcomers
  // ---------------------------------------------------------------------------------------------

  /** No task has named the place. */
  predicate Unnamed(w: Runs.World, p: Runs.Place) {
    forall i | 0 <= i < |w.tasks| :: w.tasks[i].place != p
  }

  /** Loads are applied only at places that tasks name. */
  ghost predicate LoadsAreNamed(w: Runs.World) {
    forall p :: p in w.loads ==> !Unnamed(w, p)
  }

  lemma StepKeepsNamed(w: Runs.World, s: Runs.Step)
    requires LoadsAreNamed(w)
    ensures LoadsAreNamed(Runs.Take(w, s))
  {
    var v := Runs.Take(w, s);
    forall p | p in v.loads ensures !Unnamed(v, p) {
      if s.Advance? && s.i < |w.tasks| {
        Runs.OthersStay(w, s.i, s.i);
        assert v.tasks[s.i].place == w.tasks[s.i].place;
        Balance.LoadsAfter(w, s.i);
      }
      if p in w.loads {
        var i :| 0 <= i < |w.tasks| && w.tasks[i].place == p;
        if s.Advance? && s.i < |w.tasks| { Runs.OthersStay(w, s.i, i); }
        assert v.tasks[i].place == p;
      }
    }
  }

  lemma {:induction false} RunKeepsNamed(w: Runs.World, steps: seq<Runs.Step>)
    requires LoadsAreNamed(w)
    ensures LoadsAreNamed(Runs.Run(w, steps))
    decreases |steps|
  {
    if steps != [] {
      StepKeepsNamed(w, steps[0]);
      RunKeepsNamed(Runs.Take(w, steps[0]), steps[1..]);
    }
  }

  /** An instance that a message brings in joins with no load, even if it was known before. */
  lemma NewcomerIsUnloaded(pools: Pools, w: Runs.World, kind: EventKind, xs: seq<Instance>, p: Runs.Place)
    requires p.instance !in pools.available && Pooled(PoolsAfter(pools, w, Refresh(kind, xs)).available, p)
    ensures LoadIn(PoolsAfter(pools, w, Refresh(kind, xs)).available, p) == ZERO
  {
    RefreshIsSetAlgebra(pools.available, pools.unavailable, kind, xs);
    var a := Refreshed(pools.available, pools.unavailable, kind, xs).0;
    var x :| x in xs && x.id == p.instance && a[p.instance] == Fresh(x);
    ResetIsZero(x.endpoints);
    IndexScans(a[p.instance].endpoints, p.endpoint);
  }

  /**
   An instance that a message brings in at any moment is accounted for, as long as it stays available, if
   and only if nothing was applied to the endpoint before; so it is if no task has named the endpoint.
   */
  lemma NewcomerIsAccountedIff(past: seq<Move>, kind: EventKind, xs: seq<Instance>, future: seq<Move>, p: Runs.Place)
    requires Orderly(WorkOf(past) + WorkOf(future))
    requires var w := Runs.Run(Runs.START, WorkOf(past));
             var pools := PoolsOf(NONE, Runs.START, past);
             var joined := PoolsAfter(pools, w, Refresh(kind, xs));
             p.instance !in pools.available && Pooled(joined.available, p) && StaysAvailable(joined, w, future, p.instance)
    ensures var w := Runs.Run(Runs.START, WorkOf(past));
            var joined := PoolsAfter(PoolsOf(NONE, Runs.START, past), w, Refresh(kind, xs));
            var end, v := PoolsOf(joined, w, future), Runs.Run(w, WorkOf(future));
            && (Accounted(end.available, v, p) <==> Runs.LoadAt(w, p) == ZERO)
            && (Unnamed(w, p) ==> Accounted(end.available, v, p))
  {
    var w := Runs.Run(Runs.START, WorkOf(past));
    var pools := PoolsOf(NONE, Runs.START, past);
    RunKeepsProper(NONE, Runs.START, past);
    MoveKeepsProper(pools, w, Refresh(kind, xs));
    NewcomerIsUnloaded(pools, w, kind, xs, p);
    StayingIsAccountedIff(PoolsAfter(pools, w, Refresh(kind, xs)), WorkOf(past), future, p);
    RunKeepsNamed(Runs.START, WorkOf(past));
  }

  // ---------------------------------------------------------------------------------------------
  // Instances that come back
  // ---------------------------------------------------------------------------------------------

  /** The instance is known and unavailable in every state. */
  predicate StaysAway(pools: Pools, w: Runs.World, moves: seq<Move>, id: int)
    decreases |moves|
  {
    id in pools.unavailable &&
    (moves == [] || StaysAway(PoolsAfter(pools, w, moves[0]), WorldAfter(w, moves[0]), moves[1..], id))
  }

  lemma AwayKeepsEntry(pools: Pools, w: Runs.World, m: Move, id: int)
    requires Proper(pools) && id in pools.unavailable && id in PoolsAfter(pools, w, m).unavailable
    ensures PoolsAfter(pools, w, m).unavailable[id] == pools.unavailable[id]
  {
    match m
    case Work(_) =>
    case Refresh(kind, xs) => RefreshIsSetAlgebra(pools.available, pools.unavailable, kind, xs);
    case Switch(i, mode) => SwitchKeepsKnown(pools.available, pools.unavailable, i, mode);
    case DeleteUnavailable(_) =>
  }

  lemma {:induction false} RunKeepsEntry(pools: Pools, w: Runs.World, moves: seq<Move>, id: int)
    requires Proper(pools) && StaysAway(pools, w, moves, id)
    ensures id in PoolsOf(pools, w, moves).unavailable && PoolsOf(pools, w, moves).unavailable[id] == pools.unavailable[id]
    decreases |moves|
  {
    if moves != [] {
      AwayKeepsEntry(pools, w, moves[0], id);
      MoveKeepsProper(pools, w, moves[0]);
      RunKeepsEntry(PoolsAfter(pools, w, moves[0]), WorldAfter(w, moves[0]), moves[1..], id);
    }
  }

  /** The pools after the instance was switched off, the moves `away`, and switched on again. */
  function Returned(pools: Pools, w: Runs.World, id: int, away: seq<Move>): Pools {
    var off := PoolsAfter(pools, w, Switch(id, ToUnavailable));
    PoolsAfter(PoolsOf(off, w, away), Runs.Run(w, WorkOf(away)), Switch(id, ToAvailable))
  }

  lemma ReturnsWithItsEntry(pools: Pools, w: Runs.World, id: int, away: seq<Move>)
    requires Proper(pools) && id in pools.available
    requires StaysAway(PoolsAfter(pools, w, Switch(id, ToUnavailable)), w, away, id)
    ensures Proper(Returned(pools, w, id, away))
    ensures id in Returned(pools, w, id, away).available && Returned(pools, w, id, away).available[id] == pools.available[id]
  {
    var off := PoolsAfter(pools, w, Switch(id, ToUnavailable));
    MoveKeepsProper(pools, w, Switch(id, ToUnavailable));
    RunKeepsEntry(off, w, away, id);
    RunKeepsProper(off, w, away);
    MoveKeepsProper(PoolsOf(off, w, away), Runs.Run(w, WorkOf(away)), Switch(id, ToAvailable));
  }

  /**
   Changes applied while an instance is switched off are lost. An endpoint that carried what had been
   applied to it is accounted for after the return, as long as the instance stays, if and only if the
   changes applied to it meanwhile cancel out.
   */
  lemma ReturnIsAccountedIff(pools: Pools, before: seq<Runs.Step>, away: seq<Move>, future: seq<Move>, p: Runs.Place)
    requires Proper(pools) && Pooled(pools.available, p) && Orderly(before + WorkOf(away) + WorkOf(future))
    requires LoadIn(pools.available, p) == Runs.LoadAt(Runs.Run(Runs.START, before), p)
    requires var w := Runs.Run(Runs.START, before);
             && StaysAway(PoolsAfter(pools, w, Switch(p.instance, ToUnavailable)), w, away, p.instance)
             && StaysAvailable(Returned(pools, w, p.instance, away), Runs.Run(w, WorkOf(away)), future, p.instance)
    ensures var w := Runs.Run(Runs.START, before);
            var back := Runs.Run(w, WorkOf(away));
            var end, v := PoolsOf(Returned(pools, w, p.instance, away), back, future), Runs.Run(back, WorkOf(future));
            Accounted(end.available, v, p) <==> Runs.LoadAt(back, p) == Runs.LoadAt(w, p)
  {
    var w := Runs.Run(Runs.START, before);
    Runs.RunSplits(Runs.START, before, WorkOf(away));
    ReturnsWithItsEntry(pools, w, p.instance, away);
    StayingIsAccountedIff(Returned(pools, w, p.instance, away), before + WorkOf(away), future, p);
  }

  // ---------------------------------------------------------------------------------------------
  // A run that drifts
  // ---------------------------------------------------------------------------------------------

  const INSTANCE := Instance(0, Decode, [Endpoint(0, ZERO)], ZERO)
  const PREPARED := [Runs.Begin(Records.KEY, Records.HOME, Runs.Prepare, 5), Runs.Advance(0), Runs.Advance(0)]

  /** One preparation on the instance; then a SET without it, as after a restart of the controller. */
  const LEAVING := [Refresh(ADD, [INSTANCE])] + Works(PREPARED) + [Refresh(SET, [])]

  function Works(steps: seq<Runs.Step>): seq<Move> {
    if steps == [] then [] else [Work(steps[0])] + Works(steps[1..])
  }

  lemma {:induction false} WorkOfWorks(steps: seq<Runs.Step>)
    ensures WorkOf(Works(steps)) == steps
  {
    if steps != [] {
      assert Works(steps)[1..] == Works(steps[1..]);
      WorkOfTail(Works(steps));
      WorkOfWorks(steps[1..]);
    }
  }

  lemma {:induction false} MovesSplit(pools: Pools, w: Runs.World, a: seq<Move>, b: seq<Move>)
    ensures WorkOf(a + b) == WorkOf(a) + WorkOf(b)
    ensures PoolsOf(pools, w, a + b) == PoolsOf(PoolsOf(pools, w, a), Runs.Run(w, WorkOf(a)), b)
    decreases |a|
  {
    if a == [] {
      assert a + b == b;
    } else {
      assert (a + b)[1..] == a[1..] + b && (a + b)[0] == a[0];
      MovesSplit(PoolsAfter(pools, w, a[0]), WorldAfter(w, a[0]), a[1..], b);
      WorldOfTail(w, a);
      WorkOfTail(a);
      WorkOfTail(a + b);
    }
  }

  lemma EmptySetEmpties(pools: Pools, w: Runs.World)
    ensures PoolsAfter(pools, w, Refresh(SET, [])) == NONE
  {
    RefreshIsSetAlgebra(pools.available, pools.unavailable, SET, []);
    var (a, u) := Refreshed(pools.available, pools.unavailable, SET, []);
    assert Ids(AnnouncedOf([])) == {};
    assert a == map[] && u == map[];
  }
  const REQUEST := Runs.Task(Records.KEY, Records.HOME, Runs.Prepare, Load(0.0, 5.0), Runs.Started)

  lemma PreparedSteps()
    ensures var w := Runs.Take(Runs.START, PREPARED[0]); w.tasks == [REQUEST] && w.objects == [] && w.loads == map[]
    ensures var v := Runs.Take(Runs.Take(Runs.START, PREPARED[0]), PREPARED[1]);
            v.tasks == [REQUEST.(phase := Runs.Charged)] && Runs.LoadAt(v, Records.HOME) == Load(0.0, 5.0)
  {
    var w := Runs.Take(Runs.START, PREPARED[0]);
    assert w.tasks == [REQUEST];
    Balance.LoadsAfter(w, 0);
    Balance.ApplyMoves(w, Records.HOME, Load(0.0, 5.0), Records.HOME);
    Balance.PlusZero(Load(0.0, 5.0));
  }

  lemma PreparedRun()
    ensures Runs.LoadAt(Runs.Run(Runs.START, PREPARED), Records.HOME) == Load(0.0, 5.0)
  {
    PreparedSteps();
    RecordingKeepsLoad(Runs.Take(Runs.Take(Runs.START, PREPARED[0]), PREPARED[1]));
    Records.RunOf3(Runs.START, PREPARED[0], PREPARED[1], PREPARED[2]);
  }

  lemma RecordingKeepsLoad(w: Runs.World)
    requires w.tasks == [REQUEST.(phase := Runs.Charged)]
    ensures Runs.LoadAt(Runs.Take(w, Runs.Advance(0)), Records.HOME) == Runs.LoadAt(w, Records.HOME)
  {
    Balance.LoadsAfter(w, 0);
  }

  lemma OnlyAdvances(w: Runs.World, a: Runs.Step, b: Runs.Step)
    requires a.Advance? && b.Advance?
    ensures Records.AlwaysProper(w, [a, b])
  {
    assert [a, b][1..] == [b] && [b][1..] == [];
    assert Records.AlwaysProper(Runs.Take(w, a), [b]);
  }

  lemma PreparedIsOrderly()
    ensures Orderly(PREPARED)
  {
    assert PREPARED[1..] == [PREPARED[1], PREPARED[2]];
    OnlyAdvances(Runs.Take(Runs.START, PREPARED[0]), PREPARED[1], PREPARED[2]);
    Records.DisciplineSuffices(Runs.START, PREPARED);
  }

  lemma LeavingRun()
    ensures WorkOf(LEAVING) == PREPARED && PoolsOf(NONE, Runs.START, LEAVING) == NONE
  {
    var joining, leaving := [Refresh(ADD, [INSTANCE])], [Refresh(SET, [])];
    assert joining[1..] == [] && leaving[1..] == [];
    MovesSplit(NONE, Runs.START, joining + Works(PREPARED), leaving);
    MovesSplit(NONE, Runs.START, joining, Works(PREPARED));
    WorkOfWorks(PREPARED);
    var pools, w := PoolsOf(NONE, Runs.START, joining + Works(PREPARED)), Runs.Run(Runs.START, PREPARED);
    EmptySetEmpties(pools, w);
    assert PoolsOf(pools, w, leaving) == PoolsOf(PoolsAfter(pools, w, leaving[0]), w, []);
  }

  lemma AddedToNone(w: Runs.World)
    ensures Pooled(PoolsAfter(NONE, w, Refresh(ADD, [INSTANCE])).available, Records.HOME)
  {
    var a := PoolsAfter(NONE, w, Refresh(ADD, [INSTANCE])).available;
    assert [INSTANCE][..0] == [];
    assert a == JoinAll(NONE.available, NONE.unavailable.Keys, [INSTANCE]);
    assert a == map[0 := Fresh(INSTANCE)];
    ResetIsZero(INSTANCE.endpoints);
    IndexScans(a[0].endpoints, 0);
    assert a[0].endpoints[0].id == 0;
  }

  /** When it is added again, the instance starts at zero while the request's record is still there. */
  lemma ReaddedDrifts()
    ensures var pools, w := PoolsOf(NONE, Runs.START, LEAVING), Runs.Run(Runs.START, WorkOf(LEAVING));
            var joined := PoolsAfter(pools, w, Refresh(ADD, [INSTANCE]));
            Orderly(WorkOf(LEAVING)) && Pooled(joined.available, Records.HOME) && !Accounted(joined.available, w, Records.HOME)
  {
    PreparedRun();
    PreparedIsOrderly();
    LeavingRun();
    AddedToNone(Runs.Run(Runs.START, PREPARED));
    assert WorkOf(LEAVING) + WorkOf([]) == PREPARED;
    NewcomerIsAccountedIff(LEAVING, ADD, [INSTANCE], [], Records.HOME);
  }
}
