/**
 What reports and readiness changes do to the faults of a node, and what becomes of a device fault in
 every run.
 */
module FaultOutcomes {
  import opened Prelude
  import opened EventPusher
  import opened Lifecycle
  import opened Faults

  /** The report's entry for a code that counts: the last one. */
  predicate LastEntry(report: seq<Fault>, code: int, k: nat) {
    k < |report| && report[k].code == code && forall j | k < j < |report| :: report[j].code != code
  }

  /** A dictionary built from a report holds for each code its last entry, level included, and no other code. */
  lemma {:induction false} LastEntryWins(report: seq<Fault>, code: int)
    ensures forall k: nat | LastEntry(report, code, k) :: Lookup(FromReport(report), code) == Some(report[k])
    ensures (forall j | 0 <= j < |report| :: report[j].code != code) ==> Lookup(FromReport(report), code) == None
    decreases |report|
  {
    if report != [] {
      var n := |report| - 1;
      LastEntryWins(report[..n], code);
      LookupUpsert(FromReport(report[..n]), report[n], code);
      forall k: nat | LastEntry(report, code, k) ensures Lookup(FromReport(report), code) == Some(report[k]) {
        if k < n { assert LastEntry(report[..n], code, k) && report[..n][k] == report[k]; }
      }
    }
  }

  /** The change concerns the first node of that name alone, and neither its name nor its owner. */
  ghost predicate OnlyNode(before: seq<Node>, after: seq<Node>, k: nat) {
    && k < |before| && |after| == |before|
    && after[k].name == before[k].name && after[k].owner == before[k].owner
    && forall j | 0 <= j < |before| && j != k :: after[j] == before[j]
  }

  predicate FirstNamed(nodes: seq<Node>, name: string, k: nat) {
    k < |nodes| && nodes[k].name == name && forall j | 0 <= j < k :: nodes[j].name != name
  }

  lemma {:induction false} PositionIsFirst(nodes: seq<Node>, name: string, k: nat)
    requires FirstNamed(nodes, name, k)
    ensures Position(nodes, name) == k
    decreases k
  {
    if k > 0 { PositionIsFirst(nodes[1..], name, k - 1); }
  }

  /**
   A readiness change leaves every device fault of the node alone. The node-reboot fault, code 1 of level 6,
   comes when the node stops being ready and goes when it is ready again.
   */
  lemma ReadinessOutcome(p: Plant, name: string, status: NodeStatus, k: nat)
    requires FirstNamed(p.nodes, name, k)
    ensures var before, after := p.nodes, Act(p, Status(name, status)).nodes;
            && OnlyNode(before, after, k) && after[k].status == status
            && (forall code | code != 1 :: Lookup(after[k].faults, code) == Lookup(before[k].faults, code))
            && Lookup(after[k].faults, 1) ==
               if status == before[k].status then Lookup(before[k].faults, 1)
               else if status == NodeNotReady then Some(Fault(1, 6)) else None
  {
    PositionIsFirst(p.nodes, name, k);
    forall code ensures code != 1 ==> Lookup(Statused(p.nodes[k], status).faults, code) == Lookup(p.nodes[k].faults, code) {
      LookupUpsert(p.nodes[k].faults, REBOOT, code);
      LookupWithout(p.nodes[k].faults, NODE_REBOOT, code);
    }
    LookupUpsert(p.nodes[k].faults, REBOOT, 1);
    LookupWithout(p.nodes[k].faults, NODE_REBOOT, 1);
  }

  /** A report replaces every fault of the node but a node-reboot fault that is there. */
  lemma ReportOutcome(p: Plant, name: string, report: seq<Fault>, k: nat, code: int)
    requires FirstNamed(p.nodes, name, k)
    ensures var before, after := p.nodes, Act(p, Report(name, report)).nodes;
            && OnlyNode(before, after, k) && after[k].status == before[k].status
            && (code == 1 && Lookup(before[k].faults, 1).Some? ==> Lookup(after[k].faults, 1) == Lookup(before[k].faults, 1))
            && (code != 1 || Lookup(before[k].faults, 1) == None ==>
                  && (forall j: nat | LastEntry(report, code, j) :: Lookup(after[k].faults, code) == Some(report[j]))
                  && ((forall j | 0 <= j < |report| :: report[j].code != code) ==> Lookup(after[k].faults, code) == None))
  {
    PositionIsFirst(p.nodes, name, k);
    LastEntryWins(report, code);
    var reboot := Lookup(p.nodes[k].faults, NODE_REBOOT);
    if reboot.Some? {
      LookupHasCode(p.nodes[k].faults, NODE_REBOOT);
      LookupUpsert(FromReport(report), reboot.value, code);
    }
  }

  lemma {:induction false} LookupHasCode(faults: seq<Fault>, code: int)
    ensures Lookup(faults, code).Some? ==> Lookup(faults, code).value.code == code
  {
    if faults != [] { LookupHasCode(faults[1..], code); }
  }

  // ---------------------------------------------------------------------------------------------
  // Device faults over runs
  // ---------------------------------------------------------------------------------------------

  predicate DistinctNodes(nodes: seq<Node>) {
    forall i, j | 0 <= i < j < |nodes| :: nodes[i].name != nodes[j].name
  }

  /** The node of that name has this fault recorded for the code, if any. */
  predicate Records(nodes: seq<Node>, name: string, code: int, f: Option<Fault>) {
    exists k :: 0 <= k < |nodes| && nodes[k].name == name && Lookup(nodes[k].faults, code) == f
  }

  lemma {:induction false} DropKeepsDistinct(nodes: seq<Node>, gone: int)
    requires DistinctNodes(nodes)
    ensures DistinctNodes(DropNodes(nodes, gone))
    decreases |nodes|
  {
    if nodes != [] {
      DropKeepsDistinct(nodes[1..], gone);
      DropKeepsNodes(nodes[1..], gone);
      if nodes[0].owner != gone {
        var rest := DropNodes(nodes[1..], gone);
        forall j | 0 <= j < |rest| ensures nodes[0].name != rest[j].name {
          assert rest[j] in nodes[1..];
        }
      }
    }
  }

  lemma ClaimOneStep(nodes: seq<Node>, id: int, name: string)
    requires DistinctNodes(nodes)
    ensures var next := ClaimOne(nodes, id, name);
            && DistinctNodes(next) && |nodes| <= |next|
            && forall k | 0 <= k < |nodes| :: next[k].name == nodes[k].name && next[k].faults == nodes[k].faults
  {
    var next := ClaimOne(nodes, id, name);
    if Position(nodes, name) == |nodes| {
      forall i | 0 <= i < |nodes| ensures nodes[i].name != name {
        assert !Named(nodes, name);
      }
    }
  }

  lemma {:induction false} ClaimStep(nodes: seq<Node>, id: int, names: seq<string>)
    requires DistinctNodes(nodes)
    ensures var next := Claim(nodes, id, names);
            && DistinctNodes(next) && |nodes| <= |next|
            && forall k | 0 <= k < |nodes| :: next[k].name == nodes[k].name && next[k].faults == nodes[k].faults
    decreases |names|
  {
    if names != [] {
      ClaimOneStep(nodes, id, names[0]);
      ClaimStep(ClaimOne(nodes, id, names[0]), id, names[1..]);
    }
  }

  lemma ActKeepsDistinct(p: Plant, a: Action)
    requires DistinctNodes(p.nodes)
    ensures DistinctNodes(Act(p, a).nodes)
  {
    match a
    case Register(id, _, _, _, _, names) => ClaimStep(p.nodes, id, names);
    case Hear(_, _, _, _) =>
    case Check(id, _, _) => DropKeepsDistinct(p.nodes, id);
    case Report(_, _) =>
    case Status(_, _) =>
  }

  /** Only the end of its instance takes a node away. */
  lemma NodeLeaves(p: Plant, a: Action, k: nat)
    requires DistinctNodes(p.nodes) && k < |p.nodes| && !Named(Act(p, a).nodes, p.nodes[k].name)
    ensures a.Check? && p.nodes[k].owner == a.id && a.id in p.ctl.reg.instances && a.id !in Act(p, a).ctl.reg.instances
  {
    var after := Act(p, a).nodes;
    match a
    case Register(id, _, _, _, _, names) => ClaimStep(p.nodes, id, names); NamedAt(p.nodes, after, k);
    case Hear(_, _, _, _) => NamedAt(p.nodes, after, k);
    case Check(id, _, _) =>
      DropKeepsNodes(p.nodes, id);
      MemberIsNamed(after, p.nodes[k]);
    case Report(_, _) => NamedAt(p.nodes, after, k);
    case Status(_, _) => NamedAt(p.nodes, after, k);
  }

  lemma NamedAt(before: seq<Node>, after: seq<Node>, k: nat)
    requires k < |before| <= |after| && after[k].name == before[k].name
    ensures Named(after, before[k].name)
  {
  }

  lemma MemberIsNamed(nodes: seq<Node>, n: Node)
    ensures n in nodes ==> Named(nodes, n.name)
  {
  }

  lemma CheckKeepsDevice(p: Plant, a: Action, k: nat)
    requires DistinctNodes(p.nodes) && a.Check? && k < |p.nodes| && Named(Act(p, a).nodes, p.nodes[k].name)
    ensures p.nodes[k] in Act(p, a).nodes
  {
    var after := Act(p, a).nodes;
    DropKeepsNodes(p.nodes, a.id);
    var j :| 0 <= j < |after| && after[j].name == p.nodes[k].name;
    assert after[j] in p.nodes;
    var i :| 0 <= i < |p.nodes| && p.nodes[i] == after[j];
    assert i == k;
  }

  /** No action but a report about the node changes a device fault of a node that stays. */
  lemma DeviceFaultStep(p: Plant, a: Action, name: string, code: int, f: Option<Fault>)
    requires DistinctNodes(p.nodes) && Records(p.nodes, name, code, f) && code != 1
    requires Named(Act(p, a).nodes, name) && !(a.Report? && a.name == name)
    ensures Records(Act(p, a).nodes, name, code, f)
  {
    var k :| 0 <= k < |p.nodes| && p.nodes[k].name == name && Lookup(p.nodes[k].faults, code) == f;
    var after := Act(p, a).nodes;
    match a
    case Register(id, _, _, _, _, names) =>
      ClaimStep(p.nodes, id, names);
      assert after[k].name == name;
    case Hear(_, _, _, _) =>
    case Check(id, _, _) =>
      CheckKeepsDevice(p, a, k);
      var j :| 0 <= j < |after| && after[j] == p.nodes[k];
    case Report(other, report) =>
      ReportElsewhere(p, other, report, k);
    case Status(other, status) =>
      StatusKeepsDevice(p, other, status, k, code);
  }

  lemma ReportElsewhere(p: Plant, other: string, report: seq<Fault>, k: nat)
    requires k < |p.nodes| && p.nodes[k].name != other
    ensures var after := Act(p, Report(other, report)).nodes; k < |after| && after[k] == p.nodes[k]
  {
  }

  lemma StatusKeepsDevice(p: Plant, other: string, status: NodeStatus, k: nat, code: int)
    requires k < |p.nodes| && code != 1
    ensures var after := Act(p, Status(other, status)).nodes;
            k < |after| && after[k].name == p.nodes[k].name && Lookup(after[k].faults, code) == Lookup(p.nodes[k].faults, code)
  {
    LookupUpsert(p.nodes[k].faults, REBOOT, code);
    LookupWithout(p.nodes[k].faults, NODE_REBOOT, code);
  }

  /** The node is there in every state, and no report is about it. */
  ghost predicate Undisturbed(p: Plant, actions: seq<Action>, name: string)
    decreases |actions|
  {
    Named(p.nodes, name) &&
    (actions == [] || (!(actions[0].Report? && actions[0].name == name) && Undisturbed(Act(p, actions[0]), actions[1..], name)))
  }

  lemma {:induction false} DeviceFaultStays(p: Plant, actions: seq<Action>, name: string, code: int, f: Option<Fault>)
    requires DistinctNodes(p.nodes) && Records(p.nodes, name, code, f) && code != 1 && Undisturbed(p, actions, name)
    ensures Records(ActAll(p, actions).nodes, name, code, f)
    decreases |actions|
  {
    if actions != [] {
      DeviceFaultStep(p, actions[0], name, code, f);
      ActKeepsDistinct(p, actions[0]);
      DeviceFaultStays(Act(p, actions[0]), actions[1..], name, code, f);
    }
  }

  lemma {:induction false} RunKeepsDistinct(p: Plant, actions: seq<Action>)
    requires DistinctNodes(p.nodes)
    ensures DistinctNodes(ActAll(p, actions).nodes)
    decreases |actions|
  {
    if actions != [] {
      ActKeepsDistinct(p, actions[0]);
      RunKeepsDistinct(Act(p, actions[0]), actions[1..]);
    }
  }

  /**
   From any reachable state, however long: a device fault comes to a node and leaves it only by a report
   about that node, or with the node when its instance ends.
   */
  lemma DeviceFaultsNeedReports(past: seq<Action>, future: seq<Action>, name: string, code: int, f: Option<Fault>)
    requires code != 1 && Undisturbed(ActAll(IDLE, past), future, name)
    ensures Records(ActAll(IDLE, past).nodes, name, code, f) ==> Records(ActAll(ActAll(IDLE, past), future).nodes, name, code, f)
  {
    RunKeepsDistinct(IDLE, past);
    if Records(ActAll(IDLE, past).nodes, name, code, f) {
      DeviceFaultStays(ActAll(IDLE, past), future, name, code, f);
    }
  }

  // ---------------------------------------------------------------------------------------------
  // Which fault is named
  // ---------------------------------------------------------------------------------------------

  /** The first fault of a list that no other exceeds, if one is above level 0. */
  predicate FirstWorst(faults: seq<Fault>, k: nat) {
    && k < |faults| && faults[k].level > 0
    && (forall j | 0 <= j < k :: faults[j].level < faults[k].level)
    && (forall j | k < j < |faults| :: faults[j].level <= faults[k].level)
  }

  lemma {:induction false} HighestIsFirst(faults: seq<Fault>, k: nat)
    requires FirstWorst(faults, k)
    ensures HighestFault(faults) == Some(faults[k])
    decreases |faults|
  {
    var n := |faults| - 1;
    if k < n {
      assert FirstWorst(faults[..n], k);
      HighestIsFirst(faults[..n], k);
    } else {
      HighestIsMaximum(faults[..n]);
      if HighestFault(faults[..n]).Some? {
        var j :| 0 <= j < n && faults[..n][j] == HighestFault(faults[..n]).value;
      }
    }
  }

  /** The first node of the instance whose worst fault no other node of it exceeds. */
  predicate FirstWorstNode(nodes: seq<Node>, id: int, k: nat) {
    && k < |nodes| && nodes[k].owner == id && LevelOf(HighestFault(nodes[k].faults)) > 0
    && (forall j | 0 <= j < k && nodes[j].owner == id :: LevelOf(HighestFault(nodes[j].faults)) < LevelOf(HighestFault(nodes[k].faults)))
    && (forall j | k < j < |nodes| && nodes[j].owner == id :: LevelOf(HighestFault(nodes[j].faults)) <= LevelOf(HighestFault(nodes[k].faults)))
  }

  lemma {:induction false} WorstIsFirst(nodes: seq<Node>, id: int, k: nat)
    requires FirstWorstNode(nodes, id, k)
    ensures WorstFault(nodes, id) == HighestFault(nodes[k].faults)
    decreases |nodes|
  {
    var n := |nodes| - 1;
    if k < n {
      assert FirstWorstNode(nodes[..n], id, k);
      WorstIsFirst(nodes[..n], id, k);
    } else {
      WorstIsBelow(nodes[..n], id, LevelOf(HighestFault(nodes[k].faults)));
    }
  }

  lemma {:induction false} WorstIsBelow(nodes: seq<Node>, id: int, level: nat)
    requires level > 0
    requires forall j | 0 <= j < |nodes| && nodes[j].owner == id :: LevelOf(HighestFault(nodes[j].faults)) < level
    ensures LevelOf(WorstFault(nodes, id)) < level
    decreases |nodes|
  {
    if nodes != [] { WorstIsBelow(nodes[..|nodes| - 1], id, level); }
  }

  /**
   When a refresh changes the level, the recorded code is that of the first worst fault of the first node
   that has one so bad, and 0 for a healthy instance; otherwise the metadata stays.
   */
  lemma RefreshNames(nodes: seq<Node>, id: int, m: Meta, k: nat, i: nat)
    ensures FirstWorstNode(nodes, id, k) && FirstWorst(nodes[k].faults, i) ==>
              var f := nodes[k].faults[i];
              Refreshed(nodes, id, m) == if m.level == f.level then m else Meta(f.level, f.code)
    ensures (forall j | 0 <= j < |nodes| && nodes[j].owner == id :: nodes[j].faults == []) ==>
              Refreshed(nodes, id, m) == if m.level == 0 then m else Meta(0, 0)
  {
    if FirstWorstNode(nodes, id, k) && FirstWorst(nodes[k].faults, i) {
      WorstIsFirst(nodes, id, k);
      HighestIsFirst(nodes[k].faults, i);
      assert HasFaultyNode(nodes, id);
    }
  }

  // ---------------------------------------------------------------------------------------------
  // Claiming nodes
  // ---------------------------------------------------------------------------------------------

  /** A node with that name is there and belongs to the instance. */
  predicate Owns(nodes: seq<Node>, id: int, name: string) {
    exists k :: 0 <= k < |nodes| && nodes[k].name == name && nodes[k].owner == id
  }

  lemma ClaimOneOwns(nodes: seq<Node>, id: int, name: string, other: string)
    ensures Owns(ClaimOne(nodes, id, name), id, name)
    ensures Owns(nodes, id, other) ==> Owns(ClaimOne(nodes, id, name), id, other)
  {
    var next := ClaimOne(nodes, id, name);
    assert next[Position(nodes, name)].name == name && next[Position(nodes, name)].owner == id;
    if k :| 0 <= k < |nodes| && nodes[k].name == other && nodes[k].owner == id {
      assert next[k].name == other && next[k].owner == id;
    }
  }

  lemma {:induction false} ClaimOwns(nodes: seq<Node>, id: int, names: seq<string>, name: string)
    ensures name in names || Owns(nodes, id, name) ==> Owns(Claim(nodes, id, names), id, name)
    decreases |names|
  {
    if names != [] {
      ClaimOneOwns(nodes, id, names[0], name);
      ClaimOwns(ClaimOne(nodes, id, names[0]), id, names[1..], name);
    }
  }

  /** A node the claim brings in is ready and without faults, and one it does not name keeps everything. */
  lemma {:induction false} ClaimLeaves(nodes: seq<Node>, id: int, names: seq<string>)
    ensures |nodes| <= |Claim(nodes, id, names)|
    ensures forall k | 0 <= k < |nodes| ::
              var n := Claim(nodes, id, names)[k];
              n == (if n.owner == nodes[k].owner then nodes[k] else nodes[k].(owner := id)) && (nodes[k].name !in names ==> n == nodes[k])
    ensures forall k | |nodes| <= k < |Claim(nodes, id, names)| ::
              var n := Claim(nodes, id, names)[k]; n == Node(n.name, id, NodeReady, []) && n.name in names
    decreases |names|
  {
    if names != [] { ClaimLeaves(ClaimOne(nodes, id, names[0]), id, names[1..]); }
  }

  /** A new instance owns all its nodes, whoever had them before, and starts healthy. */
  lemma RegistrationOutcome(p: Plant, id: int, job: string, role: Role, pods: Pods, now: real, names: seq<string>, name: string)
    requires id !in p.ctl.reg.instances && id !in p.metas && name in names
    ensures var q := Act(p, Register(id, job, role, pods, now, names));
            Owns(q.nodes, id, name) && q.metas == p.metas[id := Meta(0, 0)]
  {
    ClaimOwns(p.nodes, id, names, name);
  }

  /**
   An instance's level waits for a refresh only since a registration took one of its nodes, or gave it nodes
   that were known before; a report or a readiness change of one of its nodes ends that, and so does its end.
   */
  lemma StaleOnlyByRegistration(p: Plant, a: Action, id: int)
    ensures id in Act(p, a).stale && id !in p.stale ==>
              a.Register? && exists k :: 0 <= k < |p.nodes| && p.nodes[k].name in a.names && (p.nodes[k].owner == id || a.id == id)
    ensures (a.Report? || a.Status?) && id in p.metas && FirstOwned(p.nodes, a, id) ==> id !in Act(p, a).stale
    ensures id in p.metas && id in p.ctl.reg.instances && id !in Act(p, a).ctl.reg.instances && a.Check? && a.id == id ==> id !in Act(p, a).stale
  {
    if a.Register? && id in Act(p, a).stale && id !in p.stale && id !in Robbed(p.nodes, a.names) {
      var owner :| owner in Robbed(p.nodes, a.names);
      var k :| 0 <= k < |p.nodes| && p.nodes[k].name in a.names && p.nodes[k].owner == owner;
    }
  }

  /** The report or readiness change is about a node of the instance. */
  predicate FirstOwned(nodes: seq<Node>, a: Action, id: int)
    requires a.Report? || a.Status?
  {
    var k := Position(nodes, a.name);
    k < |nodes| && nodes[k].owner == id
  }
}
