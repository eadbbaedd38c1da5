/**
 Fault levels and forced separation: the FaultManager's bookkeeping of nodes and instances, and how
 each refresh drives the controller's InstanceManager.

 A dictionary of faults keyed by code is a list in insertion order with pairwise different codes.
 */
module Faults {
  import opened Prelude
  import opened EventPusher
  import opened Lifecycle

  datatype NodeStatus = NodeReady | NodeNotReady

  datatype Fault = Fault(code: int, level: nat)

  datatype Node = Node(name: string, owner: int, status: NodeStatus, faults: seq<Fault>)

  datatype Meta = Meta(level: nat, code: int)

  const NODE_REBOOT: int := 1
  const HEALTHY: nat := 0
  const L2: nat := 2
  const L6: nat := 6

  const REBOOT: Fault := Fault(NODE_REBOOT, L6)

  function Lookup(faults: seq<Fault>, code: int): Option<Fault> {
    if faults == [] then None else if faults[0].code == code then Some(faults[0]) else Lookup(faults[1..], code)
  }

  /** Assignment to a dictionary entry: in place when the code is there, at the end otherwise. */
  function Upsert(faults: seq<Fault>, f: Fault): seq<Fault> {
    if faults == [] then [f]
    else if faults[0].code == f.code then [f] + faults[1..]
    else [faults[0]] + Upsert(faults[1..], f)
  }

  function Without(faults: seq<Fault>, code: int): seq<Fault> {
    if faults == [] then []
    else if faults[0].code == code then Without(faults[1..], code)
    else [faults[0]] + Without(faults[1..], code)
  }

  function FromReport(report: seq<Fault>): seq<Fault> {
    if report == [] then [] else Upsert(FromReport(report[..|report| - 1]), report[|report| - 1])
  }

  lemma {:induction false} LookupUpsert(faults: seq<Fault>, f: Fault, code: int)
    ensures Lookup(Upsert(faults, f), code) == if code == f.code then Some(f) else Lookup(faults, code)
    decreases |faults|
  {
    if faults != [] {
      LookupUpsert(faults[1..], f, code);
    }
  }

  lemma {:induction false} LookupWithout(faults: seq<Fault>, gone: int, code: int)
    ensures Lookup(Without(faults, gone), code) == if code == gone then None else Lookup(faults, code)
    decreases |faults|
  {
    if faults != [] {
      LookupWithout(faults[1..], gone, code);
    }
  }

  /** A report mentions a code iff the dictionary built from it has an entry for it. */
  lemma {:induction false} LookupReport(report: seq<Fault>, code: int)
    ensures Lookup(FromReport(report), code).Some? <==> exists k :: 0 <= k < |report| && report[k].code == code
    decreases |report|
  {
    if report != [] {
      var n := |report| - 1;
      LookupReport(report[..n], code);
      LookupUpsert(FromReport(report[..n]), report[n], code);
      if Lookup(FromReport(report), code).Some? && report[n].code != code {
        var k :| 0 <= k < n && report[..n][k].code == code;
        assert report[k].code == code;
      }
      if exists k :: 0 <= k < |report| && report[k].code == code {
        var k :| 0 <= k < |report| && report[k].code == code;
        if k < n {
          assert report[..n][k].code == code;
        }
      }
    }
  }

  /** ConfigMap update of one node: everything is replaced except a node-reboot fault. */
  function Reported(n: Node, report: seq<Fault>): Node {
    var reboot := Lookup(n.faults, NODE_REBOOT);
    n.(faults := if reboot.Some? then Upsert(FromReport(report), reboot.value) else FromReport(report))
  }

  /** Node status update of one node. */
  function Statused(n: Node, status: NodeStatus): Node {
    if status == n.status then n
    else n.(status := status,
            faults := if status == NodeNotReady then Upsert(n.faults, REBOOT) else Without(n.faults, NODE_REBOOT))
  }

  function LevelOf(f: Option<Fault>): nat {
    if f.Some? then f.value.level else HEALTHY
  }

  /** `_eval_node_status`: the first fault of the highest level above HEALTHY. */
  function HighestFault(faults: seq<Fault>): Option<Fault> {
    if faults == [] then None
    else
      var n := |faults| - 1;
      var best := HighestFault(faults[..n]);
      if faults[n].level > LevelOf(best) then Some(faults[n]) else best
  }

  /** The worst fault over the nodes of an instance. */
  function WorstFault(nodes: seq<Node>, id: int): Option<Fault> {
    if nodes == [] then None
    else
      var k := |nodes| - 1;
      var best := WorstFault(nodes[..k], id);
      var here := HighestFault(nodes[k].faults);
      if nodes[k].owner == id && LevelOf(here) > LevelOf(best) then here else best
  }

  predicate HasFaultyNode(nodes: seq<Node>, id: int) {
    exists k :: 0 <= k < |nodes| && nodes[k].owner == id && nodes[k].faults != []
  }

  /** Instance metadata after a refresh; the code is rewritten only together with the level. */
  function Refreshed(nodes: seq<Node>, id: int, m: Meta): Meta {
    if !HasFaultyNode(nodes, id) then (if m.level != HEALTHY then Meta(HEALTHY, 0) else m)
    else
      var worst := WorstFault(nodes, id);
      if m.level != LevelOf(worst) then Meta(LevelOf(worst), if worst.Some? then worst.value.code else 0) else m
  }

  /** `level` is the maximum over all faults of all nodes of the instance. */
  ghost predicate IsMaximum(nodes: seq<Node>, id: int, level: nat) {
    && (forall k, f | 0 <= k < |nodes| && nodes[k].owner == id && f in nodes[k].faults :: f.level <= level)
    && (level != HEALTHY ==> exists k, f :: 0 <= k < |nodes| && nodes[k].owner == id && f in nodes[k].faults && f.level == level)
  }

  lemma {:induction false} HighestIsMaximum(faults: seq<Fault>)
    ensures forall f | f in faults :: f.level <= LevelOf(HighestFault(faults))
    ensures HighestFault(faults).Some? ==> HighestFault(faults).value in faults && LevelOf(HighestFault(faults)) > HEALTHY
    decreases |faults|
  {
    if faults != [] {
      HighestIsMaximum(faults[..|faults| - 1]);
      assert faults == faults[..|faults| - 1] + [faults[|faults| - 1]];
    }
  }

  lemma {:induction false} WorstIsMaximum(nodes: seq<Node>, id: int)
    ensures IsMaximum(nodes, id, LevelOf(WorstFault(nodes, id)))
    ensures WorstFault(nodes, id).Some? ==> exists k ::
      0 <= k < |nodes| && nodes[k].owner == id && WorstFault(nodes, id).value in nodes[k].faults
    decreases |nodes|
  {
    if nodes != [] {
      var k := |nodes| - 1;
      HighestIsMaximum(nodes[k].faults);
      WorstIsMaximum(nodes[..k], id);
      var best := WorstFault(nodes[..k], id);
      if best.Some? {
        var j :| 0 <= j < k && nodes[..k][j].owner == id && best.value in nodes[..k][j].faults;
        assert nodes[j].owner == id && best.value in nodes[j].faults;
      }
      forall j, f | 0 <= j < |nodes| && nodes[j].owner == id && f in nodes[j].faults
        ensures f.level <= LevelOf(WorstFault(nodes, id))
      {
        if j < k {
          assert nodes[..k][j] == nodes[j];
        }
      }
    }
  }

  /** After a refresh the instance's level is the maximum over all its nodes' faults. */
  lemma RefreshedIsMaximum(nodes: seq<Node>, id: int, m: Meta)
    ensures IsMaximum(nodes, id, Refreshed(nodes, id, m).level)
  {
    WorstIsMaximum(nodes, id);
  }

  /** Some node of the instance has the fault. */
  predicate HasFault(nodes: seq<Node>, id: int, f: Fault) {
    exists k :: 0 <= k < |nodes| && nodes[k].owner == id && f in nodes[k].faults
  }

  /** The recorded code and level are those of a fault that is there, or there is nothing to name. */
  predicate Names(nodes: seq<Node>, id: int, m: Meta) {
    m.level == HEALTHY || HasFault(nodes, id, Fault(m.code, m.level))
  }

  /**
   After a refresh the recorded code names a fault of the instance if and only if the level changed or it
   named one already.
   */
  lemma CodeIsRightIff(nodes: seq<Node>, id: int, m: Meta)
    ensures Names(nodes, id, Refreshed(nodes, id, m)) <==> Refreshed(nodes, id, m).level != m.level || Names(nodes, id, m)
  {
    WorstIsMaximum(nodes, id);
  }

  /**
   When one fault replaces another of the same level, the recorded code keeps naming the fault that is
   gone, for every pair of codes and every level above HEALTHY.
   */
  lemma CodeCanBeStale(name: string, id: int, before: int, after: int, level: nat)
    requires before != after && before != NODE_REBOOT && after != NODE_REBOOT && level != HEALTHY
    ensures var n := Node(name, id, NodeReady, []);
      var n1 := Reported(n, [Fault(before, level)]);
      var m1 := Refreshed([n1], id, Meta(HEALTHY, 0));
      var n2 := Reported(n1, [Fault(after, level)]);
      var m2 := Refreshed([n2], id, m1);
      m2 == Meta(level, before) && Lookup(n2.faults, before) == None
  {
    var n := Node(name, id, NodeReady, []);
    var f, g := Fault(before, level), Fault(after, level);
    assert FromReport([f]) == [f] by { assert [f][..0] == []; }
    assert FromReport([g]) == [g] by { assert [g][..0] == []; }
    var n1 := Reported(n, [f]);
    assert n1.faults == [f];
    assert Lookup([f], NODE_REBOOT) == None by { assert [f][1..] == []; }
    var n2 := Reported(n1, [g]);
    assert n2.faults == [g];
    assert HighestFault([f]) == Some(f) by { assert [f][..0] == []; }
    assert HighestFault([g]) == Some(g) by { assert [g][..0] == []; }
    assert [n1][..0] == [] && [n2][..0] == [];
    assert WorstFault([n1], id) == Some(f) && WorstFault([n2], id) == Some(g);
    assert HasFaultyNode([n1], id) by { assert [n1][0].faults != []; }
    assert HasFaultyNode([n2], id) by { assert [n2][0].faults != []; }
    assert Lookup([g], before) == None by { assert [g][1..] == []; }
  }

  // ---------------------------------------------------------------------------------------------
  // The FaultManager together with the controller
  // ---------------------------------------------------------------------------------------------

  /** `stale` records the instances whose set of nodes changed since their last refresh. */
  datatype Plant = Plant(ctl: Controller, nodes: seq<Node>, metas: map<int, Meta>, stale: set<int>)

  const IDLE: Plant := Plant(START, [], map[], {})

  datatype Action =
    | Register(id: int, job: string, role: Role, pods: Pods, now: real, names: seq<string>)
    | Hear(id: int, ip: string, now: real, states: map<int, EndpointStatus>)
    | Check(id: int, now: real, abnormal: bool)
    | Report(name: string, report: seq<Fault>)
    | Status(name: string, status: NodeStatus)

  predicate Named(nodes: seq<Node>, name: string) {
    exists k :: 0 <= k < |nodes| && nodes[k].name == name
  }

  function Position(nodes: seq<Node>, name: string): (k: nat)
    ensures k <= |nodes|
    ensures k < |nodes| ==> nodes[k].name == name
    ensures k == |nodes| ==> !Named(nodes, name)
  {
    if nodes == [] then 0 else if nodes[0].name == name then 0 else 1 + Position(nodes[1..], name)
  }

  /** What a refresh of `id` asks of the InstanceManager. */
  function Command(nodes: seq<Node>, id: int, m: Meta, forced: set<int>): Option<Step> {
    if !HasFaultyNode(nodes, id) then (if m.level != HEALTHY then Some(Recover(id)) else None)
    else if Refreshed(nodes, id, m).level > L2 then Some(Separate(id))
    else if id in forced then Some(Recover(id)) else None
  }

  function Refresh(p: Plant, id: int): Plant {
    if id !in p.metas then p
    else
      var c := Command(p.nodes, id, p.metas[id], p.ctl.reg.forced);
      Plant(if c.Some? then Next(p.ctl, c.value) else p.ctl,
            p.nodes, p.metas[id := Refreshed(p.nodes, id, p.metas[id])], p.stale - {id})
  }

  /** The claim of one node, known or new. */
  function ClaimOne(nodes: seq<Node>, id: int, name: string): seq<Node> {
    var k := Position(nodes, name);
    if k < |nodes| then nodes[k := nodes[k].(owner := id)] else nodes + [Node(name, id, NodeReady, [])]
  }

  /** Nodes claimed by a newly registered instance: known ones change owner, the others are created. */
  function Claim(nodes: seq<Node>, id: int, names: seq<string>): seq<Node>
    decreases |names|
  {
    if names == [] then nodes else Claim(ClaimOne(nodes, id, names[0]), id, names[1..])
  }

  /** Owners whose set of nodes the claim changes although the nodes existed. */
  function Robbed(nodes: seq<Node>, names: seq<string>): set<int> {
    set k | 0 <= k < |nodes| && nodes[k].name in names :: nodes[k].owner
  }

  function DropNodes(nodes: seq<Node>, id: int): seq<Node> {
    if nodes == [] then []
    else if nodes[0].owner == id then DropNodes(nodes[1..], id)
    else [nodes[0]] + DropNodes(nodes[1..], id)
  }

  /** One handler call of the fault manager or of the controller it observes. */
  function Act(p: Plant, a: Action): Plant {
    match a
    case Register(id, job, role, pods, now, names) =>
      if id in p.ctl.reg.instances then p
      else
        var ctl := Next(p.ctl, AddInstance(id, job, role, pods, now));
        if id in p.metas then p.(ctl := ctl)
        else Plant(ctl, Claim(p.nodes, id, names), p.metas[id := Meta(HEALTHY, 0)],
                   p.stale + Robbed(p.nodes, names) + (if Robbed(p.nodes, names) == {} then {} else {id}))
    case Hear(id, ip, now, states) => p.(ctl := Next(p.ctl, Heartbeat(id, ip, now, states)))
    case Check(id, now, abnormal) =>
      var ctl := Next(p.ctl, Tick(id, now, abnormal));
      if id in p.ctl.reg.instances && id !in ctl.reg.instances then
        (if id in p.metas then Plant(ctl, DropNodes(p.nodes, id), p.metas - {id}, p.stale - {id}) else p.(ctl := ctl))
      else p.(ctl := ctl)
    case Report(name, report) =>
      var k := Position(p.nodes, name);
      if k == |p.nodes| then p
      else Refresh(p.(nodes := p.nodes[k := Reported(p.nodes[k], report)]), p.nodes[k].owner)
    case Status(name, status) =>
      var k := Position(p.nodes, name);
      if k == |p.nodes| then p
      else Refresh(p.(nodes := p.nodes[k := Statused(p.nodes[k], status)]), p.nodes[k].owner)
  }

  function ActAll(p: Plant, actions: seq<Action>): Plant
    decreases |actions|
  {
    if actions == [] then p else ActAll(Act(p, actions[0]), actions[1..])
  }

  /**
   What every reachable state satisfies: levels are maxima for all refreshed instances, the forcibly
   separated ids are exactly those whose level exceeds L2, and no separated instance is ACTIVE.
   */
  ghost predicate Controlled(p: Plant) {
    && Sane(p.ctl.reg)
    && p.metas.Keys == p.ctl.reg.instances.Keys
    && (forall k | 0 <= k < |p.nodes| :: p.nodes[k].owner in p.metas)
    && (forall id | id in p.metas :: id in p.ctl.reg.forced <==> p.metas[id].level > L2)
    && (forall id | id in p.metas && id !in p.stale :: IsMaximum(p.nodes, id, p.metas[id].level))
  }

  /** The instance's nodes have the same faults. */
  ghost predicate SameFaults(before: seq<Node>, after: seq<Node>, id: int) {
    forall f :: HasFault(before, id, f) <==> HasFault(after, id, f)
  }

  lemma SameKeepsMaximum(before: seq<Node>, after: seq<Node>, id: int, level: nat)
    requires SameFaults(before, after, id) && IsMaximum(before, id, level)
    ensures IsMaximum(after, id, level)
  {
    forall k, f | 0 <= k < |after| && after[k].owner == id && f in after[k].faults ensures f.level <= level {
      assert HasFault(after, id, f);
      var j :| 0 <= j < |before| && before[j].owner == id && f in before[j].faults;
    }
    if level != HEALTHY {
      var k, f :| 0 <= k < |before| && before[k].owner == id && f in before[k].faults && f.level == level;
      assert HasFault(before, id, f);
      var j :| 0 <= j < |after| && after[j].owner == id && f in after[j].faults;
    }
  }

  /** A change of one node keeps the faults of every instance but its owner. */
  lemma FaultsElsewhere(before: seq<Node>, k: nat, after: Node, id: int)
    requires k < |before| && after.owner == before[k].owner && before[k].owner != id
    ensures SameFaults(before, before[k := after], id)
  {
    var changed := before[k := after];
    forall f ensures HasFault(before, id, f) <==> HasFault(changed, id, f) {
      if j :| 0 <= j < |before| && before[j].owner == id && f in before[j].faults {
        assert changed[j] == before[j];
      }
      if j :| 0 <= j < |changed| && changed[j].owner == id && f in changed[j].faults {
        assert changed[j] == before[j];
      }
    }
  }

  /** After a refresh the instance is marked for separation exactly when its level is above L2. */
  lemma CommandFollowsLevel(nodes: seq<Node>, id: int, m: Meta, forced: set<int>)
    requires id in forced <==> m.level > L2
    ensures var c := Command(nodes, id, m, forced);
            Refreshed(nodes, id, m).level > L2 <==> c == Some(Separate(id)) || (c == None && id in forced)
    ensures Command(nodes, id, m, forced) in {None, Some(Separate(id)), Some(Recover(id))}
  {
    if !HasFaultyNode(nodes, id) {
      assert Refreshed(nodes, id, m).level == HEALTHY;
    }
  }

  lemma RefreshKeeps(p: Plant, id: int, nodes: seq<Node>)
    requires Controlled(p.(nodes := nodes, stale := p.stale + {id}))
    ensures Controlled(Refresh(p.(nodes := nodes), id))
  {
    if id in p.metas {
      var q := Refresh(p.(nodes := nodes), id);
      RefreshedIsMaximum(nodes, id, p.metas[id]);
      var c := Command(nodes, id, p.metas[id], p.ctl.reg.forced);
      if c.Some? {
        NextKeepsSane(p.ctl.reg, c.value);
      }
      CommandFollowsLevel(nodes, id, p.metas[id], p.ctl.reg.forced);
      assert q.ctl.reg.instances.Keys == p.ctl.reg.instances.Keys;
    } else {
      assert p.(nodes := nodes).stale == p.stale;
    }
  }

  lemma ReportKeeps(p: Plant, k: nat, after: Node)
    requires Controlled(p) && k < |p.nodes| && after.owner == p.nodes[k].owner
    ensures Controlled(Refresh(p.(nodes := p.nodes[k := after]), after.owner))
  {
    forall id | id in p.metas && id !in p.stale && id != after.owner
      ensures IsMaximum(p.nodes[k := after], id, p.metas[id].level)
    {
      FaultsElsewhere(p.nodes, k, after, id);
      SameKeepsMaximum(p.nodes, p.nodes[k := after], id, p.metas[id].level);
    }
    RefreshKeeps(p, after.owner, p.nodes[k := after]);
  }

  lemma DropKeepsFaults(nodes: seq<Node>, gone: int, id: int)
    requires id != gone
    ensures SameFaults(nodes, DropNodes(nodes, gone), id)
  {
    DropKeepsNodes(nodes, gone);
    var kept := DropNodes(nodes, gone);
    forall f ensures HasFault(nodes, id, f) <==> HasFault(kept, id, f) {
      if k :| 0 <= k < |nodes| && nodes[k].owner == id && f in nodes[k].faults {
        assert nodes[k] in kept;
      }
      if k :| 0 <= k < |kept| && kept[k].owner == id && f in kept[k].faults {
        assert kept[k] in nodes;
      }
    }
  }

  lemma {:induction false} DropKeepsNodes(nodes: seq<Node>, gone: int)
    ensures forall n :: n in DropNodes(nodes, gone) <==> n in nodes && n.owner != gone
    decreases |nodes|
  {
    if nodes != [] {
      DropKeepsNodes(nodes[1..], gone);
      assert nodes == [nodes[0]] + nodes[1..];
    }
  }

  lemma ClaimOneKeepsFaults(nodes: seq<Node>, id: int, name: string, other: int)
    requires other != id && forall k | 0 <= k < |nodes| :: nodes[k].name == name ==> nodes[k].owner != other
    ensures SameFaults(nodes, ClaimOne(nodes, id, name), other)
  {
    var next := ClaimOne(nodes, id, name);
    forall f ensures HasFault(nodes, other, f) <==> HasFault(next, other, f) {
      if j :| 0 <= j < |nodes| && nodes[j].owner == other && f in nodes[j].faults {
        assert next[j] == nodes[j];
      }
      if j :| 0 <= j < |next| && next[j].owner == other && f in next[j].faults {
        assert next[j] == nodes[j];
      }
    }
  }

  /** A claim leaves the faults of everybody it does not rob. */
  lemma {:induction false} ClaimKeepsFaults(nodes: seq<Node>, id: int, names: seq<string>, other: int)
    requires other != id && other !in Robbed(nodes, names)
    ensures SameFaults(nodes, Claim(nodes, id, names), other)
    decreases |names|
  {
    if names != [] {
      var next := ClaimOne(nodes, id, names[0]);
      forall j | 0 <= j < |nodes| && nodes[j].name in names ensures nodes[j].owner != other {
        assert nodes[j].owner in Robbed(nodes, names);
      }
      assert names[0] in names && forall n | n in names[1..] :: n in names;
      ClaimOneKeepsFaults(nodes, id, names[0], other);
      ClaimKeepsFaults(next, id, names[1..], other);
    }
  }

  /** No node of `id` has a fault. */
  ghost predicate Faultless(nodes: seq<Node>, id: int) {
    forall k | 0 <= k < |nodes| && nodes[k].owner == id :: nodes[k].faults == []
  }

  lemma {:induction false} ClaimOfFreshNodes(nodes: seq<Node>, id: int, names: seq<string>)
    requires Faultless(nodes, id)
    requires forall k | 0 <= k < |nodes| && nodes[k].name in names :: nodes[k].faults == []
    ensures Faultless(Claim(nodes, id, names), id)
    decreases |names|
  {
    if names != [] {
      var next := ClaimOne(nodes, id, names[0]);
      assert names[0] in names;
      assert forall n | n in names[1..] :: n in names;
      ClaimOfFreshNodes(next, id, names[1..]);
    }
  }

  lemma {:induction false} ClaimOwners(nodes: seq<Node>, id: int, names: seq<string>, owners: set<int>)
    requires id in owners && forall k | 0 <= k < |nodes| :: nodes[k].owner in owners
    ensures forall k | 0 <= k < |Claim(nodes, id, names)| :: Claim(nodes, id, names)[k].owner in owners
    decreases |names|
  {
    if names != [] {
      var next := ClaimOne(nodes, id, names[0]);
      ClaimOwners(next, id, names[1..], owners);
    }
  }

  lemma RegisterKeeps(p: Plant, a: Action)
    requires Controlled(p) && a.Register? && a.id !in p.ctl.reg.instances
    ensures Controlled(Act(p, a))
  {
    var q := Act(p, a);
    NextKeepsSane(p.ctl.reg, AddInstance(a.id, a.job, a.role, a.pods, a.now));
    ClaimOwners(p.nodes, a.id, a.names, q.metas.Keys);
    forall id | id in q.metas && id !in q.stale ensures IsMaximum(q.nodes, id, q.metas[id].level) {
      if id == a.id {
        assert forall k | 0 <= k < |p.nodes| :: p.nodes[k].name in a.names ==> p.nodes[k].owner in Robbed(p.nodes, a.names);
        ClaimOfFreshNodes(p.nodes, id, a.names);
      } else {
        ClaimKeepsFaults(p.nodes, a.id, a.names, id);
        SameKeepsMaximum(p.nodes, q.nodes, id, p.metas[id].level);
      }
    }
  }

  lemma TickKeepsOrDrops(r: Registry, id: int, now: real, abnormal: bool)
    ensures var after := Effect(r, Tick(id, now, abnormal)).0;
      || (after.instances.Keys == r.instances.Keys && after.forced == r.forced)
      || (id in r.instances && after.instances.Keys == r.instances.Keys - {id} && after.forced == r.forced - {id})
  {
  }

  lemma CheckKeeps(p: Plant, a: Action)
    requires Controlled(p) && a.Check?
    ensures Controlled(Act(p, a))
  {
    var q := Act(p, a);
    var s := Tick(a.id, a.now, a.abnormal);
    NextKeepsSane(p.ctl.reg, s);
    var r := Effect(p.ctl.reg, s).0;
    TickKeepsOrDrops(p.ctl.reg, a.id, a.now, a.abnormal);
    if a.id in p.ctl.reg.instances && a.id !in r.instances {
      DropKeepsNodes(p.nodes, a.id);
      forall id | id in q.metas && id !in q.stale ensures IsMaximum(q.nodes, id, q.metas[id].level) {
        DropKeepsFaults(p.nodes, a.id, id);
        SameKeepsMaximum(p.nodes, q.nodes, id, p.metas[id].level);
      }
      forall k | 0 <= k < |q.nodes| ensures q.nodes[k].owner in q.metas {
        assert q.nodes[k] in p.nodes;
      }
    }
  }

  lemma HearKeeps(p: Plant, a: Action)
    requires Controlled(p) && a.Hear?
    ensures Controlled(Act(p, a))
  {
    var s := Heartbeat(a.id, a.ip, a.now, a.states);
    NextKeepsSane(p.ctl.reg, s);
    var r := Effect(p.ctl.reg, s).0;
    assert r.instances.Keys == p.ctl.reg.instances.Keys && r.forced == p.ctl.reg.forced;
  }

  lemma ActKeeps(p: Plant, a: Action)
    requires Controlled(p)
    ensures Controlled(Act(p, a))
  {
    match a
    case Register(id, _, _, _, _, _) =>
      if id !in p.ctl.reg.instances { RegisterKeeps(p, a); }
    case Hear(_, _, _, _) => HearKeeps(p, a);
    case Check(_, _, _) => CheckKeeps(p, a);
    case Report(name, report) =>
      var k := Position(p.nodes, name);
      if k < |p.nodes| { ReportKeeps(p, k, Reported(p.nodes[k], report)); }
    case Status(name, status) =>
      var k := Position(p.nodes, name);
      if k < |p.nodes| { ReportKeeps(p, k, Statused(p.nodes[k], status)); }
  }

  lemma {:induction false} RunIsControlled(p: Plant, actions: seq<Action>)
    requires Controlled(p)
    ensures Controlled(ActAll(p, actions))
    decreases |actions|
  {
    if actions != [] {
      ActKeeps(p, actions[0]);
      RunIsControlled(Act(p, actions[0]), actions[1..]);
    }
  }

  /**
   The fault control theorem, over every run of registrations, heartbeats, timeouts with either probe
   result, fault reports and node status changes: the level of every refreshed instance is the maximum
   over all faults of all its nodes, an id is forcibly separated exactly when its level exceeds L2, and
   no instance above L2 is ACTIVE.
   */
  lemma FaultControl(actions: seq<Action>, id: int)
    requires id in ActAll(IDLE, actions).metas
    ensures var p := ActAll(IDLE, actions);
      && (id !in p.stale ==> IsMaximum(p.nodes, id, p.metas[id].level))
      && (id in p.ctl.reg.forced <==> p.metas[id].level > 2)
      && (p.metas[id].level > 2 ==> !IsActive(p.ctl.reg, id))
  {
    RunIsControlled(IDLE, actions);
  }

  /** A refresh ends staleness, so right after a report or a status change the level is the maximum. */
  lemma FreshAfterReport(actions: seq<Action>, name: string, report: seq<Fault>)
    requires var p := ActAll(IDLE, actions); Named(p.nodes, name)
    ensures var p := ActAll(IDLE, actions);
      var id := p.nodes[Position(p.nodes, name)].owner;
      var q := Act(p, Report(name, report));
      id in q.metas && IsMaximum(q.nodes, id, q.metas[id].level)
  {
    RunIsControlled(IDLE, actions);
    var p := ActAll(IDLE, actions);
    ActKeeps(p, Report(name, report));
  }

  // ---------------------------------------------------------------------------------------------
  // The recorded fault code
  // ---------------------------------------------------------------------------------------------

  /** Every refreshed instance's code names a fault that is there. */
  ghost predicate CodesRight(p: Plant) {
    forall id | id in p.metas && id !in p.stale :: Names(p.nodes, id, p.metas[id])
  }

  /** The nodes after a report or a readiness change, if it is about a known node. */
  function NodesAfter(p: Plant, a: Action): seq<Node> {
    match a
    case Report(name, report) =>
      var k := Position(p.nodes, name);
      if k < |p.nodes| then p.nodes[k := Reported(p.nodes[k], report)] else p.nodes
    case Status(name, status) =>
      var k := Position(p.nodes, name);
      if k < |p.nodes| then p.nodes[k := Statused(p.nodes[k], status)] else p.nodes
    case _ => p.nodes
  }

  /**
   A report or readiness change after which the worst fault of the node's instance has the recorded level
   but the recorded code names none of its faults.
   */
  predicate Outdates(p: Plant, a: Action) {
    (a.Report? || a.Status?) &&
    var k := Position(p.nodes, a.name);
    k < |p.nodes| && p.nodes[k].owner in p.metas &&
    var id := p.nodes[k].owner;
    LevelOf(WorstFault(NodesAfter(p, a), id)) == p.metas[id].level && !Names(NodesAfter(p, a), id, p.metas[id])
  }

  lemma SameKeepsNames(before: seq<Node>, after: seq<Node>, id: int, m: Meta)
    requires SameFaults(before, after, id)
    ensures Names(before, id, m) <==> Names(after, id, m)
  {
  }

  /** The refreshed level is that of the worst fault. */
  lemma RefreshedLevel(nodes: seq<Node>, id: int, m: Meta)
    ensures Refreshed(nodes, id, m).level == LevelOf(WorstFault(nodes, id))
  {
    WorstIsMaximum(nodes, id);
  }

  lemma ReportOutdates(p: Plant, a: Action)
    requires Controlled(p) && CodesRight(p) && (a.Report? || a.Status?)
    ensures CodesRight(Act(p, a)) <==> !Outdates(p, a)
  {
    var k := Position(p.nodes, a.name);
    if k < |p.nodes| {
      var id := p.nodes[k].owner;
      var nodes := NodesAfter(p, a);
      var q := Act(p, a);
      assert q.nodes == nodes && q.metas == p.metas[id := Refreshed(nodes, id, p.metas[id])] && q.stale == p.stale - {id};
      CodeIsRightIff(nodes, id, p.metas[id]);
      RefreshedLevel(nodes, id, p.metas[id]);
      forall i | i in q.metas && i !in q.stale && i != id ensures Names(nodes, i, q.metas[i]) {
        FaultsElsewhere(p.nodes, k, nodes[k], i);
        SameKeepsNames(p.nodes, nodes, i, p.metas[i]);
      }
    }
  }

  lemma RegisterKeepsCodes(p: Plant, a: Action)
    requires Controlled(p) && CodesRight(p) && a.Register?
    ensures CodesRight(Act(p, a))
  {
    var q := Act(p, a);
    if a.id !in p.ctl.reg.instances {
      forall id | id in q.metas && id !in q.stale ensures Names(q.nodes, id, q.metas[id]) {
        if id != a.id {
          ClaimKeepsFaults(p.nodes, a.id, a.names, id);
          SameKeepsNames(p.nodes, q.nodes, id, p.metas[id]);
        }
      }
    }
  }

  lemma CheckKeepsCodes(p: Plant, a: Action)
    requires CodesRight(p) && a.Check?
    ensures CodesRight(Act(p, a))
  {
    var q := Act(p, a);
    forall id | id in q.metas && id !in q.stale ensures Names(q.nodes, id, q.metas[id]) {
      if q.nodes != p.nodes {
        DropKeepsFaults(p.nodes, a.id, id);
        SameKeepsNames(p.nodes, q.nodes, id, p.metas[id]);
      }
    }
  }

  /** One handler call keeps all recorded codes right if and only if it does not outdate one. */
  lemma CodeStep(p: Plant, a: Action)
    requires Controlled(p) && CodesRight(p)
    ensures CodesRight(Act(p, a)) <==> !Outdates(p, a)
  {
    match a
    case Register(_, _, _, _, _, _) => RegisterKeepsCodes(p, a);
    case Hear(_, _, _, _) =>
    case Check(_, _, _) => CheckKeepsCodes(p, a);
    case Report(_, _) => ReportOutdates(p, a);
    case Status(_, _) => ReportOutdates(p, a);
  }

  ghost predicate AlwaysCodesRight(p: Plant, actions: seq<Action>)
    decreases |actions|
  {
    CodesRight(p) && (actions == [] || AlwaysCodesRight(Act(p, actions[0]), actions[1..]))
  }

  predicate NeverOutdates(p: Plant, actions: seq<Action>)
    decreases |actions|
  {
    actions == [] || (!Outdates(p, actions[0]) && NeverOutdates(Act(p, actions[0]), actions[1..]))
  }

  /**
   Over every run, the recorded code of every refreshed instance names one of its faults in every state if
   and only if no report or readiness change takes the named fault away while another of the same level is
   the worst.
   */
  lemma {:induction false} CodesRightIff(p: Plant, actions: seq<Action>)
    requires Controlled(p) && CodesRight(p)
    ensures AlwaysCodesRight(p, actions) <==> NeverOutdates(p, actions)
    decreases |actions|
  {
    if actions != [] {
      CodeStep(p, actions[0]);
      ActKeeps(p, actions[0]);
      if CodesRight(Act(p, actions[0])) {
        CodesRightIff(Act(p, actions[0]), actions[1..]);
      }
    }
  }

  // ---------------------------------------------------------------------------------------------
  // The node-reboot fault
  // ---------------------------------------------------------------------------------------------

  /** A node carries the reboot fault, at level L6, exactly while it is not ready. */
  predicate RebootTracks(n: Node) {
    Lookup(n.faults, NODE_REBOOT) == if n.status == NodeNotReady then Some(REBOOT) else None
  }

  ghost predicate RebootsTrack(nodes: seq<Node>) {
    forall k | 0 <= k < |nodes| :: RebootTracks(nodes[k])
  }

  predicate Mentions(report: seq<Fault>, code: int) {
    exists k :: 0 <= k < |report| && report[k].code == code
  }

  /** A ConfigMap report brings the reboot code to a node that is ready. */
  predicate FalseReboot(p: Plant, a: Action) {
    a.Report? && var k := Position(p.nodes, a.name);
      k < |p.nodes| && p.nodes[k].status == NodeReady && Mentions(a.report, NODE_REBOOT)
  }

  lemma ReportedReboot(n: Node, report: seq<Fault>)
    requires RebootTracks(n)
    ensures RebootTracks(Reported(n, report)) <==> !(n.status == NodeReady && Mentions(report, NODE_REBOOT))
  {
    LookupReport(report, NODE_REBOOT);
    if n.status == NodeNotReady {
      LookupUpsert(FromReport(report), REBOOT, NODE_REBOOT);
    }
  }

  lemma StatusedReboot(n: Node, status: NodeStatus)
    requires RebootTracks(n)
    ensures RebootTracks(Statused(n, status))
  {
    LookupUpsert(n.faults, REBOOT, NODE_REBOOT);
    LookupWithout(n.faults, NODE_REBOOT, NODE_REBOOT);
  }

  lemma {:induction false} ClaimReboots(nodes: seq<Node>, id: int, names: seq<string>)
    requires RebootsTrack(nodes)
    ensures RebootsTrack(Claim(nodes, id, names))
    decreases |names|
  {
    if names != [] {
      ClaimReboots(ClaimOne(nodes, id, names[0]), id, names[1..]);
    }
  }

  /** One handler call keeps reboot fault = not ready exactly when it is not a false reboot report. */
  lemma RebootStep(p: Plant, a: Action)
    requires RebootsTrack(p.nodes)
    ensures RebootsTrack(Act(p, a).nodes) <==> !FalseReboot(p, a)
  {
    match a
    case Register(id, _, _, _, _, names) => ClaimReboots(p.nodes, id, names);
    case Hear(_, _, _, _) =>
    case Check(id, _, _) =>
      DropKeepsNodes(p.nodes, id);
      forall n | n in DropNodes(p.nodes, id) ensures RebootTracks(n) {
        assert n in p.nodes;
      }
    case Report(name, report) =>
      var k := Position(p.nodes, name);
      if k < |p.nodes| {
        ReportedReboot(p.nodes[k], report);
        var after := p.nodes[k := Reported(p.nodes[k], report)];
        assert Act(p, a).nodes == after && after[k] == Reported(p.nodes[k], report);
      }
    case Status(name, status) =>
      var k := Position(p.nodes, name);
      if k < |p.nodes| {
        StatusedReboot(p.nodes[k], status);
      }
  }

  ghost predicate AlwaysTracks(p: Plant, actions: seq<Action>)
    decreases |actions|
  {
    RebootsTrack(p.nodes) && (actions == [] || AlwaysTracks(Act(p, actions[0]), actions[1..]))
  }

  ghost predicate NoFalseReboot(p: Plant, actions: seq<Action>)
    decreases |actions|
  {
    actions == [] || (!FalseReboot(p, actions[0]) && NoFalseReboot(Act(p, actions[0]), actions[1..]))
  }

  /**
   Over every run, every node carries the reboot fault exactly while it is not ready if and only if no
   ConfigMap report ever brings the reboot code to a ready node.
   */
  lemma {:induction false} RebootFaultTracksReadiness(p: Plant, actions: seq<Action>)
    requires RebootsTrack(p.nodes)
    ensures AlwaysTracks(p, actions) <==> NoFalseReboot(p, actions)
    decreases |actions|
  {
    if actions != [] {
      RebootStep(p, actions[0]);
      if RebootsTrack(Act(p, actions[0]).nodes) {
        RebootFaultTracksReadiness(Act(p, actions[0]), actions[1..]);
      }
    }
  }
}
