/**
 The controller's Instance and InstanceManager as objects. Every handler is proved to do to the
 registry, the pusher's map and the pusher's queue exactly what `Lifecycle.Effect` says.
 */
module ControllerManager {
  import opened Prelude
  import opened EventPusher
  import opened Lifecycle

  /** The pods in `ips` are still to be stamped, the others have been. */
  ghost predicate PartlyAdmitted(was: Pods, now: real, pods: Pods, ips: set<string>) {
    pods.Keys == was.Keys &&
    forall ip | ip in pods :: pods[ip] == if ip in ips then was[ip] else Admit(was, now)[ip]
  }

  lemma AdmitOne(was: Pods, now: real, pods: Pods, ips: set<string>, ip: string)
    requires PartlyAdmitted(was, now, pods, ips) && ip in ips && ip in was
    ensures PartlyAdmitted(was, now, BeatPods(pods, ip, now, InitialReport(pods[ip])).0, ips - {ip})
  {
  }

  class Instance {
    const id: int
    const job: string
    const role: Role
    var status: Status
    var pods: Pods

    constructor (id: int, job: string, role: Role, pods: Pods)
      ensures this.id == id && View() == Record(job, role, Initial, pods)
    {
      this.id, this.job, this.role, this.status, this.pods := id, job, role, Initial, pods;
    }

    function View(): Record
      reads this
    {
      Record(job, role, status, pods)
    }

    method UpdateHeartbeat(ip: string, now: real, states: map<int, EndpointStatus>) returns (b: Beat)
      modifies `pods
      ensures (pods, b) == BeatPods(old(pods), ip, now, states)
    {
      if ip !in pods {
        return UnknownPod;
      }
      var eps := pods[ip];
      if |eps| != |states| {
        assert pods[ip := eps] == pods;
        return WrongSize;
      }
      var beaten: seq<Endpoint> := [];
      assert eps[0..] == eps;
      assert [] + BeatPod(eps, now, states).0 == BeatPod(eps, now, states).0;
      for i := 0 to |eps|
        invariant |beaten| == i && pods == old(pods)
        invariant BeatPod(eps, now, states) ==
          (beaten + BeatPod(eps[i..], now, states).0, BeatPod(eps[i..], now, states).1)
      {
        assert eps[i..][1..] == eps[i + 1..];
        if eps[i].id !in states {
          pods := pods[ip := beaten + ([eps[i].(heartbeat := now)] + eps[i + 1..])];
          return MissingEndpoint;
        }
        var e := eps[i].(heartbeat := now, status := states[eps[i].id]);
        assert beaten + ([e] + BeatPod(eps[i + 1..], now, states).0) == beaten + [e] + BeatPod(eps[i + 1..], now, states).0;
        beaten := beaten + [e];
      }
      pods := pods[ip := beaten];
      b := Beaten;
      assert eps[|eps|..] == [];
      assert beaten + [] == beaten;
    }

    /** The loop of `add_instance` that stamps every pod with an INITIAL report. */
    method AdmitPods(now: real)
      modifies `pods
      ensures pods == Admit(old(pods), now)
    {
      ghost var was := pods;
      var ips := pods.Keys;
      while ips != {}
        invariant ips <= was.Keys && PartlyAdmitted(was, now, pods, ips)
        decreases ips
      {
        var ip :| ip in ips;
        AdmitOne(was, now, pods, ips, ip);
        var _ := UpdateHeartbeat(ip, now, InitialReport(pods[ip]));
        ips := ips - {ip};
      }
    }
  }

  class InstanceManager {
    var instances: map<int, Instance>
    var forced: set<int>
    const pusher: EventPusher

    constructor (pusher: EventPusher)
      ensures Valid() && Reg() == START.reg && this.pusher == pusher
    {
      instances := map[];
      forced := {};
      this.pusher := pusher;
    }

    ghost predicate Valid()
      reads this, instances.Values
    {
      forall i | i in instances :: instances[i].id == i
    }

    ghost function Reg(): Registry
      reads this, instances.Values
    {
      Registry(map i | i in instances :: instances[i].View(), forced)
    }

    /** The manager is valid, holds registry `r`, and the pusher has processed notice `n`. */
    ghost predicate Holds(r: Registry, announced: map<string, Announced>, queue: seq<Event>, n: Option<Notice>)
      reads this, instances.Values, pusher
    {
      && Valid() && Reg() == r
      && pusher.instances == (if n.Some? then Remember(announced, n.value) else announced)
      && pusher.queue == queue + (if n.Some? && EventFor(announced, n.value).Some?
                                  then [EventFor(announced, n.value).value] else [])
    }

    /** The manager and its pusher have performed step `s` from the given state. */
    ghost predicate Did(r: Registry, announced: map<string, Announced>, queue: seq<Event>, s: Step)
      reads this, instances.Values, pusher
    {
      Holds(Effect(r, s).0, announced, queue, Effect(r, s).1)
    }

    /** When at most one managed object changed, the registry changed at its id only. */
    twostate lemma OnlyChanged(ins: Instance)
      requires old(Valid()) && instances == old(instances)
      requires ins.id in instances && instances[ins.id] == ins
      requires forall i | i in instances && i != ins.id :: unchanged(instances[i])
      ensures Reg().instances == old(Reg()).instances[ins.id := ins.View()]
    {
      assert Reg().instances.Keys == old(Reg()).instances.Keys;
      assert forall i | i in instances && i != ins.id :: instances[i].View() == old(instances[i].View());
    }

    method AddInstance(ins: Instance, now: real)
      requires Valid() && ins !in instances.Values && ins.status == Initial
      modifies this, ins
      ensures Did(old(Reg()), old(pusher.instances), old(pusher.queue),
                  Step.AddInstance(ins.id, ins.job, ins.role, old(ins.pods), now))
    {
      if ins.id in instances {
        return;
      }
      instances := instances[ins.id := ins];
      ins.AdmitPods(now);
      assert forall i | i in old(instances) :: instances[i].View() == old(instances[i].View());
      assert Reg().instances == old(Reg()).instances[ins.id := ins.View()];
    }

    method DelInstance(id: int)
      requires Valid()
      modifies `instances, `forced
      ensures Valid() && instances == old(instances) - {id}
      ensures forced == if id in old(instances) then old(forced) - {id} else old(forced)
    {
      if id in instances {
        instances := instances - {id};
        forced := forced - {id};
      } else {
        assert instances - {id} == instances;
      }
    }

    method Notify(ins: Instance, note: Note)
      modifies pusher`instances, pusher`queue
      ensures var n := Notice(ins.job, Announced(ins.id, ins.role), note);
        && pusher.instances == Remember(old(pusher.instances), n)
        && pusher.queue == old(pusher.queue)
           + (var e := EventFor(old(pusher.instances), n); if e.Some? then [e.value] else [])
    {
      pusher.Update(Notice(ins.job, Announced(ins.id, ins.role), note));
    }

    method SeparateInstance(id: int)
      requires Valid()
      modifies this, instances.Values, pusher
      ensures Did(old(Reg()), old(pusher.instances), old(pusher.queue), Separate(id))
      ensures instances == old(instances)
    {
      if id in instances {
        var ins := instances[id];
        forced := forced + {ins.id};
        if ins.status == Active {
          ins.status := Inactive;
          Notify(ins, Separated);
          OnlyChanged(ins);
        } else {
          assert Reg().instances == old(Reg()).instances;
        }
      }
    }

    method RecoverInstance(id: int)
      requires Valid()
      modifies `forced
      ensures Did(old(Reg()), old(pusher.instances), old(pusher.queue), Recover(id))
      ensures instances == old(instances)
    {
      if id in instances && id in forced {
        forced := forced - {id};
      }
      assert id in instances ==> forced == old(forced) - {id};
    }

    method IsInstanceSeparated(id: int) returns (separated: bool)
      requires Valid()
      ensures separated == (id in instances && id in forced)
    {
      separated := id in instances && id in forced;
    }

    /** The table lookup and the four state handlers. */
    method HandleStateTransition(ins: Instance, event: Condition, abnormal: bool, now: real) returns (ok: bool)
      requires Valid() && ins.id in instances && instances[ins.id] == ins
      modifies this, ins, pusher
      ensures var o := React(old(Reg()), ins.id, event, abnormal, now);
        ok == o.2 && Holds(o.0, old(pusher.instances), old(pusher.queue), o.1)
    {
      var from := ins.status;
      var to := Transition(from, event);
      if to == None {
        return false;
      }
      if ins.id in forced && to == Some(Active) {
        return true;
      }
      ok := true;
      match to.value {
        case Initial => HandleInitial(ins, from, event);
        case Active => HandleActive(ins, from, event);
        case Inactive => HandleInactive(ins, from, event, abnormal, now);
        case Deleted => HandleDeleted(ins, from, event);
      }
    }

    method HandleInitial(ins: Instance, from: Status, event: Condition)
      requires Valid() && ins.id in instances && instances[ins.id] == ins && ins.status == from
      requires from == Initial || (from == Inactive && event == InstanceInit)
      modifies ins
      ensures Holds(if from == Initial then old(Reg()) else WithStatus(old(Reg()), ins.id, Initial),
                    old(pusher.instances), old(pusher.queue), None)
    {
      if from == Inactive && event == InstanceInit {
        ins.status := Initial;
        OnlyChanged(ins);
      }
    }

    method HandleActive(ins: Instance, from: Status, event: Condition)
      requires Valid() && ins.id in instances && instances[ins.id] == ins && ins.status == from
      requires event == InstanceNormal
      modifies ins, pusher
      ensures if from == Active then Holds(old(Reg()), old(pusher.instances), old(pusher.queue), None)
        else Holds(WithStatus(old(Reg()), ins.id, Active), old(pusher.instances), old(pusher.queue),
                   NoticeFor(old(Reg()), ins.id, Ready))
    {
      if from == Active {
        return;
      }
      if event == InstanceNormal {
        ins.status := Active;
        Notify(ins, Ready);
        OnlyChanged(ins);
      }
    }

    method HandleInactive(ins: Instance, from: Status, event: Condition, abnormal: bool, now: real)
      requires Valid() && ins.id in instances && instances[ins.id] == ins && ins.status == from
      requires event == InstanceAbnormal || event == HeartbeatTimeout
      modifies ins, pusher
      ensures if from == Inactive then Holds(old(Reg()), old(pusher.instances), old(pusher.queue), None)
        else if event == InstanceAbnormal || abnormal then
          Holds(WithStatus(old(Reg()), ins.id, Inactive), old(pusher.instances), old(pusher.queue),
                NoticeFor(old(Reg()), ins.id, Separated))
        else Holds(WithPods(old(Reg()), ins.id, StampAll(old(ins.pods), now)),
                   old(pusher.instances), old(pusher.queue), None)
    {
      if from == Inactive {
        return;
      }
      if event == InstanceAbnormal || abnormal {
        ins.status := Inactive;
        Notify(ins, Separated);
        OnlyChanged(ins);
      } else {
        ins.pods := StampAll(ins.pods, now);
        OnlyChanged(ins);
      }
    }

    method HandleDeleted(ins: Instance, from: Status, event: Condition)
      requires Valid() && ins.id in instances && instances[ins.id] == ins && ins.status == from
      requires from != Deleted && event == HeartbeatTimeout
      modifies this, ins, pusher
      ensures Holds(Registry(old(Reg()).instances - {ins.id}, old(forced) - {ins.id}),
                    old(pusher.instances), old(pusher.queue), NoticeFor(old(Reg()), ins.id, Unhandled))
    {
      ins.status := Deleted;
      OnlyChanged(ins);
      Notify(ins, Unhandled);
      DelInstance(ins.id);
      assert forall i | i in instances :: instances[i].View() == old(instances[i].View());
      assert Reg().instances == old(Reg()).instances - {ins.id};
    }

    /** `handle_heartbeat`; `ok` is false where the source raises an HTTP error. */
    method HandleHeartbeat(id: int, ip: string, now: real, states: map<int, EndpointStatus>) returns (ok: bool)
      requires Valid()
      modifies this, instances.Values, pusher
      ensures Did(old(Reg()), old(pusher.instances), old(pusher.queue), Heartbeat(id, ip, now, states))
      ensures ok <==> Answers(old(Reg()), id, ip, now, states)
    {
      if id !in instances {
        return false;
      }
      var ins := instances[id];
      var b := ins.UpdateHeartbeat(ip, now, states);
      OnlyChanged(ins);
      if b != Beaten {
        return false;
      }
      ok := HandleStateTransition(ins, Observe(ins.pods), false, now);
    }

    /** The management loop's visit to one instance; `abnormal` is the node managers' answer. */
    method ManagementTick(id: int, now: real, abnormal: bool)
      requires Valid()
      modifies this, instances.Values, pusher
      ensures Did(old(Reg()), old(pusher.instances), old(pusher.queue), Tick(id, now, abnormal))
    {
      if id in instances {
        var ins := instances[id];
        if !AllAlive(ins.View(), now) {
          var _ := HandleStateTransition(ins, HeartbeatTimeout, abnormal, now);
        }
      }
    }
  }
}
