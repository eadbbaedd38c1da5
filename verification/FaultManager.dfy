/** The FaultManager's handlers as methods; each is proved to perform the matching `Faults` function. */
module FaultManager {
  import opened Prelude
  import opened EventPusher
  import opened Lifecycle
  import opened ControllerManager
  import opened Faults

  class FaultManager {
    var nodes: seq<Node>
    var metas: map<int, Meta>
    const manager: InstanceManager

    constructor (manager: InstanceManager)
      ensures nodes == [] && metas == map[] && this.manager == manager
    {
      this.nodes, this.metas, this.manager := [], map[], manager;
    }

    ghost predicate Valid()
      reads this, manager, manager.instances.Values
    {
      manager.Valid()
    }

    ghost function View(): Plant
      reads this, manager, manager.instances.Values, manager.pusher
    {
      Plant(Controller(manager.Reg(), manager.pusher.instances), nodes, metas, {})
    }

    /** `_eval_node_status`. */
    method EvalNodeStatus(faults: seq<Fault>) returns (target: Option<Fault>)
      ensures target == HighestFault(faults)
    {
      var highest := HEALTHY;
      target := None;
      for k := 0 to |faults|
        invariant target == HighestFault(faults[..k]) && highest == LevelOf(target)
      {
        assert faults[..k + 1][..k] == faults[..k];
        if faults[k].level > highest {
          highest := faults[k].level;
          target := Some(faults[k]);
        }
      }
      assert faults[..|faults|] == faults;
    }

    /** `_update_highest_fault_level` over the nodes of the instance. */
    method UpdateHighestFaultLevel(id: int)
      requires id in metas && HasFaultyNode(nodes, id)
      modifies `metas
      ensures metas == old(metas)[id := Refreshed(nodes, id, old(metas)[id])]
    {
      var highest := HEALTHY;
      var worst: Option<Fault> := None;
      for k := 0 to |nodes|
        invariant worst == WorstFault(nodes[..k], id) && highest == LevelOf(worst) && metas == old(metas)
      {
        assert nodes[..k + 1][..k] == nodes[..k];
        if nodes[k].owner == id && nodes[k].faults != [] {
          var here := EvalNodeStatus(nodes[k].faults);
          if here.Some? && here.value.level > highest {
            highest := here.value.level;
            worst := here;
          }
        }
      }
      assert nodes[..|nodes|] == nodes;
      if metas[id].level != highest {
        metas := metas[id := Meta(highest, if worst.Some? then worst.value.code else 0)];
      } else {
        assert metas[id := metas[id]] == metas;
      }
    }

    /** `_refresh_instance_fault_level`. */
    method RefreshInstanceFaultLevel(id: int)
      requires Valid()
      modifies `metas, manager, manager.instances.Values, manager.pusher
      ensures Valid() && View() == Refresh(old(View()), id)
    {
      if id !in metas {
        return;
      }
      ghost var asked := Command(nodes, id, metas[id], manager.forced);
      if !HasFaultyNode(nodes, id) {
        if metas[id].level != HEALTHY {
          metas := metas[id := Meta(HEALTHY, 0)];
          assert asked == Some(Recover(id));
          Obey(Recover(id));
        } else {
          assert metas[id := metas[id]] == metas;
        }
        return;
      }
      UpdateHighestFaultLevel(id);
      if metas[id].level > L2 {
        assert asked == Some(Separate(id));
        Obey(Separate(id));
      } else {
        var separated := manager.IsInstanceSeparated(id);
        if separated {
          assert asked == Some(Recover(id));
          Obey(Recover(id));
        }
      }
    }

    /** The call of the InstanceManager, as a step of the controller. */
    method Obey(command: Step)
      requires Valid() && (command.Separate? || command.Recover?)
      modifies manager, manager.instances.Values, manager.pusher
      ensures Valid() && View().ctl == Next(old(View().ctl), command)
    {
      if command.Separate? {
        manager.SeparateInstance(command.id);
      } else {
        manager.RecoverInstance(command.id);
      }
    }

    /** `_handle_fault_info_update`. */
    method HandleFaultInfoUpdate(report: seq<Fault>, name: string)
      requires Valid()
      modifies this, manager, manager.instances.Values, manager.pusher
      ensures Valid() && View() == Act(old(View()), Report(name, report))
    {
      var k := Position(nodes, name);
      if k == |nodes| {
        return;
      }
      var reboot := Lookup(nodes[k].faults, NODE_REBOOT);
      var infos: seq<Fault> := [];
      for i := 0 to |report|
        invariant infos == FromReport(report[..i])
      {
        assert report[..i + 1][..i] == report[..i];
        infos := Upsert(infos, report[i]);
      }
      assert report[..|report|] == report;
      if reboot.Some? {
        infos := Upsert(infos, reboot.value);
      }
      nodes := nodes[k := nodes[k].(faults := infos)];
      assert View() == old(View()).(nodes := old(nodes)[k := Reported(old(nodes)[k], report)]);
      RefreshInstanceFaultLevel(nodes[k].owner);
    }

    /** `_handle_node_status_update`. */
    method HandleNodeStatusUpdate(status: NodeStatus, name: string)
      requires Valid()
      modifies this, manager, manager.instances.Values, manager.pusher
      ensures Valid() && View() == Act(old(View()), Status(name, status))
    {
      var k := Position(nodes, name);
      if k == |nodes| {
        return;
      }
      var node := nodes[k];
      var previous := node.status;
      node := node.(status := status);
      if previous != status {
        if status == NodeNotReady {
          node := node.(faults := Upsert(node.faults, REBOOT));
        } else {
          node := node.(faults := Without(node.faults, NODE_REBOOT));
        }
      }
      nodes := nodes[k := node];
      assert View() == old(View()).(nodes := old(nodes)[k := Statused(old(nodes)[k], status)]);
      RefreshInstanceFaultLevel(node.owner);
    }
  }
}
