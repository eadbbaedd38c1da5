/**
 The coordinator's InstanceManager: available and unavailable pools, one pool per role, the
 endpoint cache and the loads.

 The source's dictionaries share Instance and Endpoint objects. Here `available` and `unavailable`
 hold the instances, a role pool holds the ids it shares with `available`, and the endpoint cache
 holds positions in an instance's endpoint list.
 */
module CoordinatorPools {
  import opened Prelude
  import opened EventPusher

  datatype Load = Load(kv: real, tokens: real)

  const ZERO: Load := Load(0.0, 0.0)

  function Plus(a: Load, b: Load): Load {
    Load(a.kv + b.kv, a.tokens + b.tokens)
  }

  datatype Endpoint = Endpoint(id: int, load: Load)

  datatype Instance = Instance(id: int, role: Role, endpoints: seq<Endpoint>, gathered: Load)

  /** The sum over a list of endpoints. */
  function Total(endpoints: seq<Endpoint>): Load {
    if endpoints == [] then ZERO else Plus(endpoints[0].load, Total(endpoints[1..]))
  }

  function Charge(e: Endpoint, change: Load): Endpoint {
    e.(load := Plus(e.load, change))
  }

  /** Charging one endpoint changes the total by the same amount. */
  lemma {:induction false} TotalAfterCharge(endpoints: seq<Endpoint>, k: nat, change: Load)
    requires k < |endpoints|
    ensures Total(endpoints[k := Charge(endpoints[k], change)]) == Plus(Total(endpoints), change)
    decreases |endpoints|
  {
    var after := endpoints[k := Charge(endpoints[k], change)];
    if k == 0 {
      assert after[1..] == endpoints[1..];
    } else {
      assert after[1..] == endpoints[1..][k - 1 := Charge(endpoints[1..][k - 1], change)];
      TotalAfterCharge(endpoints[1..], k - 1, change);
    }
  }

  function Reset(endpoints: seq<Endpoint>): seq<Endpoint> {
    if endpoints == [] then [] else [endpoints[0].(load := ZERO)] + Reset(endpoints[1..])
  }

  /** Resetting keeps the endpoints, puts every load at zero, and so the total. */
  lemma {:induction false} ResetIsZero(endpoints: seq<Endpoint>)
    ensures |Reset(endpoints)| == |endpoints| && Total(Reset(endpoints)) == ZERO
    ensures forall k | 0 <= k < |endpoints| :: Reset(endpoints)[k] == endpoints[k].(load := ZERO)
    decreases |endpoints|
  {
    if endpoints != [] {
      ResetIsZero(endpoints[1..]);
      assert Reset(endpoints)[1..] == Reset(endpoints[1..]);
    }
  }

  /** The endpoint cache of an instance: later endpoints win over earlier ones with the same id. */
  function Index(endpoints: seq<Endpoint>): map<int, nat> {
    if endpoints == [] then map[]
    else
      var n := |endpoints| - 1;
      Index(endpoints[..n])[endpoints[n].id := n]
  }

  /** The cache answers like a scan: a hit is the last endpoint with that id, a miss means there is none. */
  lemma {:induction false} IndexScans(endpoints: seq<Endpoint>, id: int)
    ensures if id in Index(endpoints) then
        var k := Index(endpoints)[id];
        k < |endpoints| && endpoints[k].id == id && forall l | k < l < |endpoints| :: endpoints[l].id != id
      else forall l | 0 <= l < |endpoints| :: endpoints[l].id != id
    decreases |endpoints|
  {
    if endpoints != [] {
      var n := |endpoints| - 1;
      IndexScans(endpoints[..n], id);
      assert forall l | 0 <= l < n :: endpoints[..n][l] == endpoints[l];
    }
  }

  /** The index depends on the endpoint ids only. */
  lemma {:induction false} IndexOfSameIds(a: seq<Endpoint>, b: seq<Endpoint>)
    requires |a| == |b| && forall k | 0 <= k < |a| :: a[k].id == b[k].id
    ensures Index(a) == Index(b)
    decreases |a|
  {
    if a != [] {
      IndexOfSameIds(a[..|a| - 1], b[..|b| - 1]);
    }
  }

  function Ids(xs: set<Announced>): set<int> {
    set x | x in xs :: x.id
  }

  /** The coordinator's known ids after one refresh message. */
  function RefreshKnown(known: set<int>, m: Message): set<int> {
    match m.kind
    case ADD => known + Ids(m.instances)
    case DEL => known - Ids(m.instances)
    case SET => Ids(m.instances)
  }

  /** What a list of instances announces. */
  function AnnouncedOf(xs: seq<Instance>): set<Announced> {
    set x | x in xs :: Announced(x.id, x.role)
  }

  function IdsOf(xs: seq<Instance>): set<int> {
    set x | x in xs :: x.id
  }

  lemma IdsOfAnnounced(xs: seq<Instance>)
    ensures Ids(AnnouncedOf(xs)) == IdsOf(xs)
  {
    forall i | i in IdsOf(xs) ensures i in Ids(AnnouncedOf(xs)) {
      var x :| x in xs && x.id == i;
      assert Announced(x.id, x.role) in AnnouncedOf(xs);
    }
  }

  function OfRole(pool: map<int, Instance>, role: Role): set<int> {
    set i | i in pool && pool[i].role == role
  }

  /** The instance is filed under its id and its gathered load is the sum over its endpoints. */
  ghost predicate Sound(pool: map<int, Instance>) {
    forall i | i in pool :: pool[i].id == i && pool[i].gathered == Total(pool[i].endpoints)
  }

  ghost predicate Cached(cache: map<int, map<int, nat>>, pool: map<int, Instance>) {
    cache.Keys == pool.Keys && forall i | i in pool :: cache[i] == Index(pool[i].endpoints)
  }

  /** A newcomer starts with every load at zero. */
  function Fresh(x: Instance): Instance {
    x.(endpoints := Reset(x.endpoints), gathered := ZERO)
  }

  /** The available pool after the instances of a list joined one by one; known ids are left alone. */
  function JoinAll(available: map<int, Instance>, others: set<int>, xs: seq<Instance>): map<int, Instance> {
    if xs == [] then available
    else
      var n := |xs| - 1;
      var before := JoinAll(available, others, xs[..n]);
      if xs[n].id in others || xs[n].id in before then before else before[xs[n].id := Fresh(xs[n])]
  }

  lemma {:induction false} JoinAllIsUnion(available: map<int, Instance>, others: set<int>, xs: seq<Instance>)
    ensures var after := JoinAll(available, others, xs);
      && after.Keys + others == available.Keys + others + IdsOf(xs)
      && (forall i | i in available :: i in after && after[i] == available[i])
      && (forall i | i in after && i !in available :: i !in others && exists x :: x in xs && x.id == i && after[i] == Fresh(x))
    decreases |xs|
  {
    if xs != [] {
      var n := |xs| - 1;
      JoinAllIsUnion(available, others, xs[..n]);
      assert xs == xs[..n] + [xs[n]];
      assert IdsOf(xs) == IdsOf(xs[..n]) + {xs[n].id};
    }
  }

  function Elements(ids: seq<int>): set<int> {
    set i | i in ids
  }

  lemma ElementsSnoc(ids: seq<int>, k: nat)
    requires k < |ids|
    ensures Elements(ids[..k + 1]) == Elements(ids[..k]) + {ids[k]}
  {
    assert ids[..k + 1] == ids[..k] + [ids[k]];
  }

  lemma OneMoreGone(pool: map<int, Instance>, gone: set<int>, id: int)
    ensures pool - gone - {id} == pool - (gone + {id})
  {
  }

  /** The elements of a set, in some order. */
  method Listed(s: set<int>) returns (l: seq<int>)
    ensures Elements(l) == s && (l == [] <==> s == {})
  {
    l := [];
    var rest := s;
    while rest != {}
      invariant rest <= s && forall i :: i in l <==> i in s - rest
      decreases rest
    {
      assert (forall i :: i !in rest) ==> rest == {};
      var i :| i in rest;
      l := l + [i];
      rest := rest - {i};
    }
    forall i ensures i in Elements(l) <==> i in s {
    }
    assert l != [] ==> l[0] in s;
    assert (forall i :: i !in s) ==> s == {};
  }

  /** All instances of one id agree on the role, with each other and with the pools. */
  ghost predicate RolesAgree(xs: seq<Instance>, available: map<int, Instance>, unavailable: map<int, Instance>) {
    && (forall x | x in xs && x.id in available :: available[x.id].role == x.role)
    && (forall x | x in xs && x.id in unavailable :: unavailable[x.id].role == x.role)
    && (forall x, y | x in xs && y in xs && x.id == y.id :: x.role == y.role)
  }

  lemma RoleStillAgrees(xs: seq<Instance>, available: map<int, Instance>, unavailable: map<int, Instance>, k: nat)
    requires RolesAgree(xs, available, unavailable) && k < |xs|
    ensures var now := JoinAll(available, unavailable.Keys, xs[..k]);
      xs[k].id in now ==> now[xs[k].id].role == xs[k].role
  {
    var now := JoinAll(available, unavailable.Keys, xs[..k]);
    JoinAllIsUnion(available, unavailable.Keys, xs[..k]);
    assert xs[k] in xs;
    if xs[k].id in now && xs[k].id !in available {
      var x :| x in xs[..k] && x.id == xs[k].id && now[xs[k].id] == Fresh(x);
      assert x in xs;
    }
  }

  /** The instances of a list whose id is in the set, in order. */
  function Filter(xs: seq<Instance>, ids: set<int>): (r: seq<Instance>)
    ensures forall x :: x in r <==> x in xs && x.id in ids
  {
    if xs == [] then []
    else if xs[0].id in ids then [xs[0]] + Filter(xs[1..], ids)
    else Filter(xs[1..], ids)
  }

  /** The pools after SET: the ids to drop are removed, the missing ones join, the rest is left alone. */
  function SetDiff(available: map<int, Instance>, unavailable: map<int, Instance>, xs: seq<Instance>)
    : (map<int, Instance>, map<int, Instance>)
  {
    var known := available.Keys + unavailable.Keys;
    var others := unavailable - (known - IdsOf(xs));
    (JoinAll(available - (known - IdsOf(xs)), others.Keys, Filter(xs, IdsOf(xs) - known)), others)
  }

  lemma FilterIds(xs: seq<Instance>, ids: set<int>)
    requires ids <= IdsOf(xs)
    ensures IdsOf(Filter(xs, ids)) == ids
  {
    forall i | i in ids ensures i in IdsOf(Filter(xs, ids)) {
      var x :| x in xs && x.id == i;
      assert x in Filter(xs, ids);
    }
  }

  /** SET is assignment on known ids; survivors keep pool and value, newcomers start at zero. */
  lemma SetDiffIsAssignment(available: map<int, Instance>, unavailable: map<int, Instance>, xs: seq<Instance>)
    ensures var (a, u) := SetDiff(available, unavailable, xs);
      && a.Keys + u.Keys == IdsOf(xs)
      && (forall i | i in available && i in IdsOf(xs) :: i in a && a[i] == available[i])
      && (forall i | i in u :: i in unavailable && u[i] == unavailable[i])
      && (forall i | i in unavailable && i in IdsOf(xs) && i !in available :: i in u)
      && (forall i | i in a && i !in available :: exists x :: x in xs && x.id == i && a[i] == Fresh(x))
  {
    var known := available.Keys + unavailable.Keys;
    var toAdd := Filter(xs, IdsOf(xs) - known);
    FilterIds(xs, IdsOf(xs) - known);
    JoinAllIsUnion(available - (known - IdsOf(xs)), (unavailable - (known - IdsOf(xs))).Keys, toAdd);
  }

  /** A load change reaches the endpoint with the id, and the instance's gathered load. */
  function Charged(pool: map<int, Instance>, instanceId: int, endpointId: int, change: Load): map<int, Instance> {
    if instanceId !in pool || endpointId !in Index(pool[instanceId].endpoints) then pool
    else
      var x := pool[instanceId];
      var k := Index(x.endpoints)[endpointId];
      IndexScans(x.endpoints, endpointId);
      pool[instanceId := x.(endpoints := x.endpoints[k := Charge(x.endpoints[k], change)], gathered := Plus(x.gathered, change))]
  }

  /** Both pools after one refresh message. */
  function Refreshed(available: map<int, Instance>, unavailable: map<int, Instance>, kind: EventKind, xs: seq<Instance>)
    : (map<int, Instance>, map<int, Instance>)
  {
    match kind
    case ADD => (JoinAll(available, unavailable.Keys, xs), unavailable)
    case DEL => (available - IdsOf(xs), unavailable - IdsOf(xs))
    case SET => SetDiff(available, unavailable, xs)
  }

  /**
   A refresh is set algebra on the known ids: union, difference or assignment. Instances that stay keep
   their pool entry, with their loads; nothing is added to the unavailable pool; newcomers start at zero.
   */
  lemma RefreshIsSetAlgebra(available: map<int, Instance>, unavailable: map<int, Instance>, kind: EventKind, xs: seq<Instance>)
    ensures var (a, u) := Refreshed(available, unavailable, kind, xs);
      && a.Keys + u.Keys == RefreshKnown(available.Keys + unavailable.Keys, Message(kind, AnnouncedOf(xs)))
      && (forall i | i in available && i in a.Keys + u.Keys && i !in unavailable :: i in a && a[i] == available[i])
      && (forall i | i in unavailable && i in a.Keys + u.Keys && i !in available :: i in u)
      && (forall i | i in u :: i in unavailable && u[i] == unavailable[i])
      && (forall i | i in a && i !in available :: exists x :: x in xs && x.id == i && a[i] == Fresh(x))
  {
    IdsOfAnnounced(xs);
    match kind
    case ADD => JoinAllIsUnion(available, unavailable.Keys, xs);
    case DEL =>
    case SET => SetDiffIsAssignment(available, unavailable, xs);
  }

  /** The first instance of the list with its id. */
  predicate FirstOfId(xs: seq<Instance>, k: nat) {
    k < |xs| && forall j | 0 <= j < k :: xs[j].id != xs[k].id
  }

  /** The instance of the message as it is: same role, same endpoints in order, and no load anywhere. */
  predicate JoinsEmpty(x: Instance, joined: Instance) {
    && joined.id == x.id && joined.role == x.role && joined.gathered == Load(0.0, 0.0)
    && |joined.endpoints| == |x.endpoints|
    && forall k | 0 <= k < |x.endpoints| :: joined.endpoints[k] == Endpoint(x.endpoints[k].id, Load(0.0, 0.0))
  }

  lemma {:induction false} ResetEmpties(endpoints: seq<Endpoint>)
    ensures |Reset(endpoints)| == |endpoints|
    ensures forall k | 0 <= k < |endpoints| :: Reset(endpoints)[k] == Endpoint(endpoints[k].id, Load(0.0, 0.0))
  {
    if endpoints != [] { ResetEmpties(endpoints[1..]); }
  }

  lemma {:induction false} FirstJoins(available: map<int, Instance>, others: set<int>, xs: seq<Instance>, k: nat)
    requires FirstOfId(xs, k) && xs[k].id !in available && xs[k].id !in others
    ensures var after := JoinAll(available, others, xs); xs[k].id in after && after[xs[k].id] == Fresh(xs[k])
    decreases |xs|
  {
    var n := |xs| - 1;
    if k < n {
      FirstJoins(available, others, xs[..n], k);
    } else {
      JoinAllIsUnion(available, others, xs[..n]);
    }
  }

  lemma {:induction false} FirstIsFiltered(xs: seq<Instance>, ids: set<int>, k: nat) returns (q: nat)
    requires FirstOfId(xs, k) && xs[k].id in ids
    ensures FirstOfId(Filter(xs, ids), q) && Filter(xs, ids)[q] == xs[k]
    decreases |xs|
  {
    if k == 0 {
      q := 0;
    } else {
      assert xs[0].id != xs[k].id;
      assert FirstOfId(xs[1..], k - 1) && xs[1..][k - 1] == xs[k];
      q := FirstIsFiltered(xs[1..], ids, k - 1);
      if xs[0].id in ids {
        FirstBehind(xs[0], Filter(xs[1..], ids), q);
        q := q + 1;
      }
    }
  }

  lemma FirstBehind(x: Instance, xs: seq<Instance>, q: nat)
    requires FirstOfId(xs, q) && x.id != xs[q].id
    ensures FirstOfId([x] + xs, q + 1) && ([x] + xs)[q + 1] == xs[q]
  {
  }

  /**
   Every instance that ADD or SET brings in joins as its first entry in the message says, with all its
   endpoints and no load.
   */
  lemma NewcomersJoinEmpty(available: map<int, Instance>, unavailable: map<int, Instance>, kind: EventKind, xs: seq<Instance>, k: nat)
    requires kind != DEL && FirstOfId(xs, k) && xs[k].id !in available && xs[k].id !in unavailable
    ensures var a := Refreshed(available, unavailable, kind, xs).0; xs[k].id in a && JoinsEmpty(xs[k], a[xs[k].id])
  {
    ResetEmpties(xs[k].endpoints);
    if kind == ADD {
      FirstJoins(available, unavailable.Keys, xs, k);
    } else {
      var known := available.Keys + unavailable.Keys;
      assert xs[k].id in IdsOf(xs) - known;
      var q := FirstIsFiltered(xs, IdsOf(xs) - known, k);
      FirstJoins(available - (known - IdsOf(xs)), (unavailable - (known - IdsOf(xs))).Keys, Filter(xs, IdsOf(xs) - known), q);
    }
  }

  /** One of the first ids is known. */
  predicate Hits(ids: seq<int>, n: nat, known: set<int>)
    requires n <= |ids|
  {
    exists j :: 0 <= j < n && ids[j] in known
  }

  /** An id is found exactly if it is known and not deleted before, so repetitions change nothing. */
  lemma HitsNext(ids: seq<int>, k: nat, known: set<int>)
    requires k < |ids|
    ensures Hits(ids, k + 1, known) <==> Hits(ids, k, known) || (ids[k] in known && ids[k] !in Elements(ids[..k]))
  {
    if ids[k] in known && ids[k] in Elements(ids[..k]) {
      var j :| 0 <= j < k && ids[..k][j] == ids[k];
      assert ids[j] in known;
    }
  }

  lemma RemovalChanges(ids: seq<int>, known: set<int>)
    ensures known - Elements(ids) != known <==> Hits(ids, |ids|, known)
  {
    if known - Elements(ids) != known {
      assert (forall i :: i in known ==> i !in Elements(ids)) ==> known - Elements(ids) == known;
      var i :| i in known && i in Elements(ids);
      var j :| 0 <= j < |ids| && ids[j] == i;
    }
    if j :| 0 <= j < |ids| && ids[j] in known {
      assert ids[j] in Elements(ids) && ids[j] !in known - Elements(ids);
    }
  }

  lemma DisjointUnion(before: set<int>, after: set<int>, others: set<int>)
    requires before <= after && after !! others
    ensures after + others == before + others <==> after == before
  {
  }

  lemma FilterEmpty(xs: seq<Instance>, ids: set<int>)
    requires ids <= IdsOf(xs)
    ensures Filter(xs, ids) == [] <==> ids == {}
  {
    FilterIds(xs, ids);
    if Filter(xs, ids) != [] { assert Filter(xs, ids)[0].id in IdsOf(Filter(xs, ids)); }
  }

  lemma DifferenceIsChange(current: set<int>, wanted: set<int>)
    ensures wanted != current <==> current - wanted != {} || wanted - current != {}
  {
    if current - wanted == {} && wanted - current == {} {
      assert forall i :: i in current <==> i in wanted by {
        forall i ensures i in current <==> i in wanted {
          assert i !in current - wanted && i !in wanted - current;
        }
      }
    }
  }

  /** Charging changes no id, no role and no index, and gathered loads stay sums. */
  lemma ChargedKeeps(pool: map<int, Instance>, instanceId: int, endpointId: int, change: Load)
    requires Sound(pool)
    ensures var after := Charged(pool, instanceId, endpointId, change);
      && after.Keys == pool.Keys && Sound(after)
      && (forall i | i in pool :: after[i].role == pool[i].role && Index(after[i].endpoints) == Index(pool[i].endpoints))
  {
    if instanceId in pool && endpointId in Index(pool[instanceId].endpoints) {
      var x := pool[instanceId];
      var k := Index(x.endpoints)[endpointId];
      IndexScans(x.endpoints, endpointId);
      TotalAfterCharge(x.endpoints, k, change);
      IndexOfSameIds(x.endpoints, x.endpoints[k := Charge(x.endpoints[k], change)]);
    }
  }

  /** A charge leaves ids, role pools and cache right. */
  lemma ChargedIsValid(pool: map<int, Instance>, cache: map<int, map<int, nat>>, instanceId: int, endpointId: int, change: Load)
    requires Sound(pool) && Cached(cache, pool)
    ensures var after := Charged(pool, instanceId, endpointId, change);
      && after.Keys == pool.Keys && Sound(after) && Cached(cache, after)
      && (forall role :: OfRole(after, role) == OfRole(pool, role))
  {
    ChargedKeeps(pool, instanceId, endpointId, change);
    forall role ensures OfRole(Charged(pool, instanceId, endpointId, change), role) == OfRole(pool, role) {
    }
  }

  datatype Mode = ToAvailable | ToUnavailable

  /** Both pools after an instance changes sides. */
  function Switched(available: map<int, Instance>, unavailable: map<int, Instance>, id: int, mode: Mode)
    : (map<int, Instance>, map<int, Instance>)
  {
    match mode
    case ToAvailable => if id in unavailable then (available[id := unavailable[id]], unavailable - {id}) else (available, unavailable)
    case ToUnavailable => if id in available then (available - {id}, unavailable[id := available[id]]) else (available, unavailable)
  }

  /** Changing sides keeps every known id with its entry, and moves no instance but the one named. */
  lemma SwitchKeepsKnown(available: map<int, Instance>, unavailable: map<int, Instance>, id: int, mode: Mode)
    requires available.Keys !! unavailable.Keys
    ensures var (a, u) := Switched(available, unavailable, id, mode);
      && a.Keys !! u.Keys && a.Keys + u.Keys == available.Keys + unavailable.Keys
      && (forall i | i in a.Keys + u.Keys ::
            (if i in a then a[i] else u[i]) == (if i in available then available[i] else unavailable[i]))
      && (id in a.Keys + u.Keys ==> (id in a <==> mode == ToAvailable))
      && (forall i | i in a.Keys + u.Keys && i != id :: i in a <==> i in available)
  {
  }

  lemma {:induction false} JoinAllKeepsSound(available: map<int, Instance>, others: set<int>, xs: seq<Instance>)
    requires Sound(available)
    ensures Sound(JoinAll(available, others, xs))
    decreases |xs|
  {
    if xs != [] {
      JoinAllKeepsSound(available, others, xs[..|xs| - 1]);
      ResetIsZero(xs[|xs| - 1].endpoints);
    }
  }

  /** Gathered loads stay sums through every refresh. */
  lemma RefreshKeepsSound(available: map<int, Instance>, unavailable: map<int, Instance>, kind: EventKind, xs: seq<Instance>)
    requires Sound(available) && Sound(unavailable)
    ensures var (a, u) := Refreshed(available, unavailable, kind, xs); Sound(a) && Sound(u)
  {
    match kind
    case ADD => JoinAllKeepsSound(available, unavailable.Keys, xs);
    case DEL =>
    case SET =>
      var known := available.Keys + unavailable.Keys;
      JoinAllKeepsSound(available - (known - IdsOf(xs)), (unavailable - (known - IdsOf(xs))).Keys, Filter(xs, IdsOf(xs) - known));
  }

  class InstanceManager {
    var available: map<int, Instance>
    var unavailable: map<int, Instance>
    var prefill: set<int>
    var decode: set<int>
    var hybrid: set<int>
    var cache: map<int, map<int, nat>>

    constructor ()
      ensures Valid() && Known() == {}
    {
      available, unavailable, prefill, decode, hybrid, cache := map[], map[], {}, {}, {}, map[];
    }

    function Known(): set<int>
      reads this
    {
      available.Keys + unavailable.Keys
    }

    /** The instance filed under a known id. */
    function Find(id: int): Instance
      requires id in Known()
      reads this
    {
      if id in available then available[id] else unavailable[id]
    }

    /** Pools are disjoint, role pools partition the available pool, cache and loads are right. */
    ghost predicate Valid()
      reads this
    {
      && Sound(available) && Sound(unavailable)
      && available.Keys !! unavailable.Keys
      && RolePools()
      && Cached(cache, available)
    }

    ghost predicate RolePools()
      reads this
    {
      prefill == OfRole(available, Prefill) && decode == OfRole(available, Decode) && hybrid == OfRole(available, Hybrid)
    }

    /** `_add_instance_to_available_pool`. */
    method AddToAvailablePool(x: Instance) returns (ok: bool)
      requires RolePools() && (x.id in available ==> available[x.id].role == x.role)
      modifies `available, `prefill, `decode, `hybrid, `cache
      ensures RolePools() && ok == (x.id !in old(available))
      ensures available == if ok then old(available)[x.id := x] else old(available)
      ensures cache == if ok then old(cache)[x.id := Index(x.endpoints)] else old(cache)
    {
      var pool := match x.role { case Prefill => prefill case Decode => decode case Hybrid => hybrid };
      if x.id in pool {
        return false;
      }
      match x.role {
        case Prefill => prefill := prefill + {x.id};
        case Decode => decode := decode + {x.id};
        case Hybrid => hybrid := hybrid + {x.id};
      }
      available := available[x.id := x];
      cache := cache[x.id := Index(x.endpoints)];
      ok := true;
    }

    /** `_delete_instance_from_available_pool`. */
    method DeleteFromAvailablePool(id: int) returns (ok: bool)
      requires RolePools() && cache.Keys == available.Keys
      modifies `available, `prefill, `decode, `hybrid, `cache
      ensures RolePools() && ok == (id in old(available))
      ensures available == old(available) - {id} && cache == old(cache) - {id}
    {
      if id !in available {
        assert available - {id} == available && cache - {id} == cache;
        return false;
      }
      match available[id].role {
        case Prefill => prefill := prefill - {id};
        case Decode => decode := decode - {id};
        case Hybrid => hybrid := hybrid - {id};
      }
      available := available - {id};
      cache := cache - {id};
      ok := true;
    }

    /** `_add_instances` for one instance. */
    method AddOne(x: Instance) returns (added: bool)
      requires Valid() && (x.id in available ==> available[x.id].role == x.role)
      modifies `available, `prefill, `decode, `hybrid, `cache
      ensures Valid()
      ensures added == (x.id !in old(Known()))
      ensures available == if added then old(available)[x.id := Fresh(x)] else old(available)
    {
      if x.id in unavailable {
        return false;
      }
      ResetIsZero(x.endpoints);
      added := AddToAvailablePool(Fresh(x));
    }

    /** `_add_instances`: ids already known are left alone, the others join at zero load. */
    method AddInstances(xs: seq<Instance>) returns (modified: bool)
      requires Valid() && RolesAgree(xs, available, unavailable)
      modifies `available, `prefill, `decode, `hybrid, `cache
      ensures Valid() && available == JoinAll(old(available), unavailable.Keys, xs)
      ensures modified == (available.Keys != old(available).Keys)
    {
      modified := false;
      for k := 0 to |xs|
        invariant Valid() && available == JoinAll(old(available), unavailable.Keys, xs[..k])
        invariant old(available).Keys <= available.Keys
        invariant modified == (available.Keys != old(available).Keys)
      {
        RoleStillAgrees(xs, old(available), unavailable, k);
        assert xs[..k + 1][..k] == xs[..k];
        var added := AddOne(xs[k]);
        if added {
          modified := true;
        }
      }
      assert xs[..|xs|] == xs;
    }

    /** `_delete_instances` for one id. */
    method DeleteOne(id: int) returns (deleted: bool)
      requires Valid()
      modifies `available, `unavailable, `prefill, `decode, `hybrid, `cache
      ensures Valid()
      ensures deleted == (id in old(Known()))
      ensures available == old(available) - {id} && unavailable == old(unavailable) - {id}
    {
      if id in unavailable {
        unavailable := unavailable - {id};
        assert available - {id} == available;
        return true;
      }
      deleted := DeleteFromAvailablePool(id);
      assert unavailable - {id} == unavailable;
    }

    /** `_delete_instances`. */
    method DeleteInstances(ids: seq<int>) returns (modified: bool)
      requires Valid()
      modifies `available, `unavailable, `prefill, `decode, `hybrid, `cache
      ensures Valid()
      ensures available == old(available) - Elements(ids) && unavailable == old(unavailable) - Elements(ids)
      ensures modified == (Known() != old(Known()))
    {
      ghost var known := Known();
      modified := false;
      for k := 0 to |ids|
        invariant Valid()
        invariant available == old(available) - Elements(ids[..k])
        invariant unavailable == old(unavailable) - Elements(ids[..k])
        invariant modified == Hits(ids, k, known)
      {
        ElementsSnoc(ids, k);
        assert ids[k] in Known() <==> ids[k] in known && ids[k] !in Elements(ids[..k]);
        HitsNext(ids, k, known);
        OneMoreGone(old(available), Elements(ids[..k]), ids[k]);
        OneMoreGone(old(unavailable), Elements(ids[..k]), ids[k]);
        var deleted := DeleteOne(ids[k]);
        modified := modified || deleted;
      }
      assert ids[..|ids|] == ids;
      assert Known() == known - Elements(ids);
      RemovalChanges(ids, known);
    }

    /** `_apply_set_diff`. */
    method ApplySetDiff(xs: seq<Instance>) returns (modified: bool)
      requires Valid() && RolesAgree(xs, available, unavailable)
      modifies `available, `unavailable, `prefill, `decode, `hybrid, `cache
      ensures Valid() && modified == (IdsOf(xs) != old(Known()))
      ensures (available, unavailable) == SetDiff(old(available), old(unavailable), xs)
    {
      var current, wanted := Known(), IdsOf(xs);
      var toRemove := Listed(current - wanted);
      var toAdd := Filter(xs, wanted - current);
      FilterEmpty(xs, wanted - current);
      modified := toRemove != [] || toAdd != [];
      DifferenceIsChange(current, wanted);
      if modified {
        var _ := DeleteInstances(toRemove);
        var _ := AddInstances(toAdd);
      } else {
        assert available - {} == available && unavailable - {} == unavailable;
      }
    }

    /** `refresh_instances`: the answer is true exactly when the known ids changed. */
    method RefreshInstances(kind: EventKind, xs: seq<Instance>) returns (modified: bool)
      requires Valid() && RolesAgree(xs, available, unavailable)
      modifies `available, `unavailable, `prefill, `decode, `hybrid, `cache
      ensures Valid() && (available, unavailable) == Refreshed(old(available), old(unavailable), kind, xs)
      ensures modified == (Known() != old(Known()))
    {
      match kind {
        case ADD =>
          modified := AddInstances(xs);
          JoinAllIsUnion(old(available), unavailable.Keys, xs);
          DisjointUnion(old(available).Keys, available.Keys, unavailable.Keys);
        case DEL =>
          var ids := seq(|xs|, k requires 0 <= k < |xs| => xs[k].id);
          assert Elements(ids) == IdsOf(xs) by {
            assert forall k | 0 <= k < |xs| :: xs[k] in xs && ids[k] in ids;
          }
          modified := DeleteInstances(ids);
        case SET =>
          modified := ApplySetDiff(xs);
          SetDiffIsAssignment(old(available), old(unavailable), xs);
      }
    }

    /** `update_instance_state`. */
    method UpdateInstanceState(id: int, mode: Mode)
      requires Valid()
      modifies `available, `unavailable, `prefill, `decode, `hybrid, `cache
      ensures Valid() && Known() == old(Known())
      ensures (available, unavailable) == Switched(old(available), old(unavailable), id, mode)
    {
      SwitchKeepsKnown(available, unavailable, id, mode);
      match mode {
        case ToAvailable =>
          if id in unavailable {
            var x := unavailable[id];
            unavailable := unavailable - {id};
            var _ := AddToAvailablePool(x);
          }
        case ToUnavailable =>
          if id in available {
            var x := available[id];
            var _ := DeleteFromAvailablePool(id);
            unavailable := unavailable[id := x];
          }
      }
    }

    /** `delete_unavailable_instance`. */
    method DeleteUnavailableInstance(id: int)
      requires Valid()
      modifies `unavailable
      ensures Valid() && unavailable == old(unavailable) - {id}
    {
      unavailable := unavailable - {id};
    }

    /**
     `update_instance_workload`: charges the endpoint the cache finds and its instance, or nothing when
     the instance is not available or carries no such endpoint.
     */
    method UpdateInstanceWorkload(instanceId: int, endpointId: int, change: Load)
      requires Valid()
      modifies `available
      ensures Valid()
      ensures available == Charged(old(available), instanceId, endpointId, change)
    {
      if instanceId !in available {
        return;
      }
      if endpointId !in cache[instanceId] {
        return;
      }
      ghost var before := available;
      var x := available[instanceId];
      var k := cache[instanceId][endpointId];
      IndexScans(x.endpoints, endpointId);
      available := available[instanceId := x.(gathered := Plus(x.gathered, change))];
      available := available[instanceId := available[instanceId].(endpoints := x.endpoints[k := Charge(x.endpoints[k], change)])];
      assert available == Charged(before, instanceId, endpointId, change);
      ChargedIsValid(before, cache, instanceId, endpointId, change);
    }
  }
}
