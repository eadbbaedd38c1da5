/**
 The controller's InstanceManager: the table-driven life cycle of an instance, the set of
 forcibly separated ids, and the notices it sends to the EventPusher.

 `Effect` gives the outcome of one lock-free handler call as a value; the class below performs
 it on objects and is proved to do exactly that. `Next` adds the pusher's map.
 */
module Lifecycle {
  import opened Prelude
  import opened EventPusher

  datatype Status = Initial | Active | Inactive | Deleted

  datatype Condition = InstanceInit | InstanceNormal | InstanceAbnormal | HeartbeatTimeout

  datatype EndpointStatus = EpInitial | EpNormal | EpAbnormal | EpPaused | EpWaitToStart

  datatype Endpoint = Endpoint(id: int, status: EndpointStatus, heartbeat: real)

  /** Endpoints of an instance by pod address, each pod's endpoints in dictionary order. */
  type Pods = map<string, seq<Endpoint>>

  datatype Record = Record(job: string, role: Role, status: Status, pods: Pods)

  datatype Registry = Registry(instances: map<int, Record>, forced: set<int>)

  const ACTIVE_TIMEOUT: real := 5.0
  const CLEAR_TIMEOUT: real := 300.0

  /** The transition table. */
  function Transition(from: Status, event: Condition): Option<Status> {
    match (from, event)
    case (Initial, InstanceInit) => Some(Initial)
    case (Initial, InstanceNormal) => Some(Active)
    case (Initial, InstanceAbnormal) => Some(Inactive)
    case (Initial, HeartbeatTimeout) => Some(Deleted)
    case (Active, InstanceNormal) => Some(Active)
    case (Active, HeartbeatTimeout) => Some(Inactive)
    case (Active, InstanceAbnormal) => Some(Inactive)
    case (Inactive, InstanceAbnormal) => Some(Inactive)
    case (Inactive, InstanceNormal) => Some(Active)
    case (Inactive, InstanceInit) => Some(Initial)
    case (Inactive, HeartbeatTimeout) => Some(Deleted)
    case _ => None
  }

  predicate AllReady(pods: Pods) {
    forall ip | ip in pods :: forall e | e in pods[ip] :: e.status == EpNormal
  }

  predicate AnyAbnormal(pods: Pods) {
    exists ip | ip in pods :: exists e | e in pods[ip] :: e.status == EpAbnormal
  }

  predicate AllAlive(r: Record, now: real) {
    forall ip | ip in r.pods :: forall e | e in r.pods[ip] ::
      now - e.heartbeat <= (if r.status == Active then ACTIVE_TIMEOUT else CLEAR_TIMEOUT)
  }

  /** The event a heartbeat stands for, read off the endpoint states. */
  function Observe(pods: Pods): Condition {
    if AllReady(pods) then InstanceNormal else if AnyAbnormal(pods) then InstanceAbnormal else InstanceInit
  }

  datatype Beat = Beaten | UnknownPod | WrongSize | MissingEndpoint

  /** Heartbeat over one pod's endpoints: stops at the first id the message lacks, after stamping it. */
  function BeatPod(eps: seq<Endpoint>, now: real, states: map<int, EndpointStatus>): (seq<Endpoint>, Beat) {
    if eps == [] then ([], Beaten)
    else if eps[0].id !in states then ([eps[0].(heartbeat := now)] + eps[1..], MissingEndpoint)
    else
      var (rest, b) := BeatPod(eps[1..], now, states);
      ([eps[0].(heartbeat := now, status := states[eps[0].id])] + rest, b)
  }

  function BeatSized(eps: seq<Endpoint>, now: real, states: map<int, EndpointStatus>): (seq<Endpoint>, Beat) {
    if |eps| != |states| then (eps, WrongSize) else BeatPod(eps, now, states)
  }

  /** `update_heartbeat`. */
  function BeatPods(pods: Pods, ip: string, now: real, states: map<int, EndpointStatus>): (Pods, Beat) {
    if ip !in pods then (pods, UnknownPod)
    else
      var (eps, b) := BeatSized(pods[ip], now, states);
      (pods[ip := eps], b)
  }

  function Stamp(eps: seq<Endpoint>, now: real): seq<Endpoint> {
    seq(|eps|, i requires 0 <= i < |eps| => eps[i].(heartbeat := now))
  }

  /** All endpoints stamped with `now`, as after a timeout that the node managers deny. */
  function StampAll(pods: Pods, now: real): Pods {
    map ip | ip in pods :: Stamp(pods[ip], now)
  }

  /** State ids of one pod as a fresh INITIAL report. */
  function InitialReport(eps: seq<Endpoint>): map<int, EndpointStatus> {
    map e | e in eps :: e.id := EpInitial
  }

  /** Endpoint states after `add_instance`: every pod reports INITIAL once. */
  function Admit(pods: Pods, now: real): Pods {
    map ip | ip in pods :: BeatSized(pods[ip], now, InitialReport(pods[ip])).0
  }

  datatype Step =
    | AddInstance(id: int, job: string, role: Role, pods: Pods, now: real)
    | Heartbeat(id: int, ip: string, now: real, states: map<int, EndpointStatus>)
    | Tick(id: int, now: real, abnormal: bool)
    | Separate(id: int)
    | Recover(id: int)

  function NoticeFor(r: Registry, id: int, note: Note): Option<Notice>
    requires id in r.instances
  {
    Some(Notice(r.instances[id].job, Announced(id, r.instances[id].role), note))
  }

  function WithStatus(r: Registry, id: int, status: Status): Registry
    requires id in r.instances
  {
    r.(instances := r.instances[id := r.instances[id].(status := status)])
  }

  function WithPods(r: Registry, id: int, pods: Pods): Registry
    requires id in r.instances
  {
    r.(instances := r.instances[id := r.instances[id].(pods := pods)])
  }

  /** `_handle_state_transition`: new registry, notice sent, and the Boolean it returns. */
  function React(r: Registry, id: int, event: Condition, abnormal: bool, now: real): (Registry, Option<Notice>, bool)
    requires id in r.instances
  {
    var from := r.instances[id].status;
    var to := Transition(from, event);
    if to == None then (r, None, false)
    else if id in r.forced && to == Some(Active) then (r, None, true)
    else if from == to.value then (r, None, true)
    else match to.value
      case Initial => (WithStatus(r, id, Initial), None, true)
      case Active => (WithStatus(r, id, Active), NoticeFor(r, id, Ready), true)
      case Inactive =>
        if event == InstanceAbnormal || abnormal then (WithStatus(r, id, Inactive), NoticeFor(r, id, Separated), true)
        else (WithPods(r, id, StampAll(r.instances[id].pods, now)), None, true)
      case Deleted => (Registry(r.instances - {id}, r.forced - {id}), NoticeFor(r, id, Unhandled), true)
  }

  /** `handle_heartbeat` returns; otherwise it raises an error. */
  predicate Answers(r: Registry, id: int, ip: string, now: real, states: map<int, EndpointStatus>) {
    id in r.instances &&
    var (pods, b) := BeatPods(r.instances[id].pods, ip, now, states);
    b == Beaten && React(WithPods(r, id, pods), id, Observe(pods), false, now).2
  }

  lemma {:induction false} BeatenIff(eps: seq<Endpoint>, now: real, states: map<int, EndpointStatus>)
    ensures BeatPod(eps, now, states).1 == Beaten <==> forall i | 0 <= i < |eps| :: eps[i].id in states
  {
    if eps != [] { BeatenIff(eps[1..], now, states); }
  }

  /**
   A heartbeat is answered exactly if its instance and pod are known, it reports as many states as the pod
   has endpoints and one for each of them, and does not leave an ACTIVE instance neither all ready nor
   abnormal anywhere, for which the table has no transition.
   */
  lemma HeartbeatAnswersIff(r: Registry, id: int, ip: string, now: real, states: map<int, EndpointStatus>)
    requires Sane(r)
    ensures Answers(r, id, ip, now, states) <==>
            && id in r.instances && ip in r.instances[id].pods
            && |r.instances[id].pods[ip]| == |states|
            && (forall i | 0 <= i < |r.instances[id].pods[ip]| :: r.instances[id].pods[ip][i].id in states)
            && !(IsActive(r, id) && Observe(BeatPods(r.instances[id].pods, ip, now, states).0) == InstanceInit)
  {
    if id in r.instances && ip in r.instances[id].pods {
      BeatenIff(r.instances[id].pods[ip], now, states);
    }
  }

  /** One handler call of the controller. */
  function Effect(r: Registry, s: Step): (Registry, Option<Notice>) {
    match s
    case AddInstance(id, job, role, pods, now) =>
      if id in r.instances then (r, None)
      else (r.(instances := r.instances[id := Record(job, role, Initial, Admit(pods, now))]), None)
    case Heartbeat(id, ip, now, states) =>
      if id !in r.instances then (r, None)
      else
        var (pods, b) := BeatPods(r.instances[id].pods, ip, now, states);
        var r' := WithPods(r, id, pods);
        if b != Beaten then (r', None)
        else
          var o := React(r', id, Observe(pods), false, now);
          (o.0, o.1)
    case Tick(id, now, abnormal) =>
      if id !in r.instances || AllAlive(r.instances[id], now) then (r, None)
      else
        var o := React(r, id, HeartbeatTimeout, abnormal, now);
        (o.0, o.1)
    case Separate(id) =>
      if id !in r.instances then (r, None)
      else
        var r' := r.(forced := r.forced + {id});
        if r.instances[id].status != Active then (r', None)
        else (WithStatus(r', id, Inactive), NoticeFor(r, id, Separated))
    case Recover(id) =>
      if id in r.instances then (r.(forced := r.forced - {id}), None) else (r, None)
  }

  // ---------------------------------------------------------------------------------------------
  // Runs of the controller together with the pusher's map
  // ---------------------------------------------------------------------------------------------

  datatype Controller = Controller(reg: Registry, announced: map<string, Announced>)

  const START: Controller := Controller(Registry(map[], {}), map[])

  function Next(c: Controller, s: Step): Controller {
    var (r, n) := Effect(c.reg, s);
    Controller(r, if n.Some? then Remember(c.announced, n.value) else c.announced)
  }

  /** The event, if any, that a step makes the pusher queue. */
  function Issued(c: Controller, s: Step): Option<Event> {
    var n := Effect(c.reg, s).1;
    if n.Some? then EventFor(c.announced, n.value) else None
  }

  predicate IsActive(r: Registry, id: int) {
    id in r.instances && r.instances[id].status == Active
  }

  ghost function ActiveIds(r: Registry): set<int> {
    set id | id in r.instances && r.instances[id].status == Active
  }

  ghost function AnnouncedIds(announced: map<string, Announced>): set<int> {
    set x | x in announced.Values :: x.id
  }

  /** The pusher's map holds exactly the ACTIVE instances, each under its own job name. */
  ghost predicate Exact(c: Controller) {
    && (forall j <- c.announced ::
         && IsActive(c.reg, c.announced[j].id)
         && var x := c.reg.instances[c.announced[j].id]; x.job == j && x.role == c.announced[j].role)
    && (forall id | IsActive(c.reg, id) ::
         c.reg.instances[id].job in c.announced && c.announced[c.reg.instances[id].job].id == id)
  }

  /** The id whose READY or SEPARATED notice a step sends. */
  function Notified(r: Registry, s: Step): Option<int> {
    var n := Effect(r, s).1;
    if n.Some? && n.value.note != Unhandled then Some(n.value.ins.id) else None
  }

  /** Another ACTIVE instance carries the given job name. */
  ghost predicate SharesJob(r: Registry, id: int, job: string) {
    exists other | other in r.instances :: other != id && IsActive(r, other) && r.instances[other].job == job
  }

  /** The step notifies about one instance while another ACTIVE one carries the same job name. */
  ghost predicate Clashes(r: Registry, s: Step) {
    var n := Notified(r, s);
    n.Some? && n.value in r.instances && SharesJob(r, n.value, r.instances[n.value].job)
  }

  /** Instances kept in the registry are never DELETED, and a forcibly separated one is managed and not ACTIVE. */
  ghost predicate Sane(r: Registry) {
    && (forall id | id in r.instances :: r.instances[id].status != Deleted)
    && (forall id | id in r.forced :: id in r.instances && r.instances[id].status != Active)
  }

  lemma ReactKeepsSane(r: Registry, id: int, event: Condition, abnormal: bool, now: real)
    requires Sane(r) && id in r.instances
    ensures Sane(React(r, id, event, abnormal, now).0)
  {
  }

  /** A reaction keeps the job names of the instances that stay, and adds none. */
  lemma ReactKeepsJobs(r: Registry, id: int, event: Condition, abnormal: bool, now: real)
    requires id in r.instances
    ensures var after := React(r, id, event, abnormal, now).0.instances;
            forall i :: i in after ==> i in r.instances && after[i].job == r.instances[i].job
  {
  }

  lemma NextKeepsSane(r: Registry, s: Step)
    requires Sane(r)
    ensures Sane(Effect(r, s).0)
  {
    match s
    case Heartbeat(id, ip, now, states) =>
      if id in r.instances {
        var pods := BeatPods(r.instances[id].pods, ip, now, states).0;
        ReactKeepsSane(WithPods(r, id, pods), id, Observe(pods), false, now);
      }
    case Tick(id, now, abnormal) =>
      if id in r.instances { ReactKeepsSane(r, id, HeartbeatTimeout, abnormal, now); }
    case _ =>
  }

  /** A notice always concerns a managed instance and carries its identity. */
  lemma NoticeIsAboutManaged(r: Registry, s: Step)
    ensures var n := Effect(r, s).1; n.Some? ==>
      n.value.ins.id in r.instances && n.value.job == r.instances[n.value.ins.id].job
      && n.value.ins.role == r.instances[n.value.ins.id].role
  {
  }

  /** A reaction leaves other instances alone, and without a notice its own keeps being ACTIVE or not. */
  lemma ReactUntouched(r: Registry, id: int, event: Condition, abnormal: bool, now: real, i: int)
    requires Sane(r) && id in r.instances
    requires var n := React(r, id, event, abnormal, now).1; i == id ==> n == None || n.value.note == Unhandled
    ensures var r' := React(r, id, event, abnormal, now).0;
            && IsActive(r', i) == IsActive(r, i)
            && (IsActive(r, i) ==> r'.instances[i].job == r.instances[i].job && r'.instances[i].role == r.instances[i].role)
  {
  }

  /** A heartbeat's own bookkeeping changes no status. */
  lemma PodsUntouched(r: Registry, id: int, pods: Pods, i: int)
    requires Sane(r) && id in r.instances
    ensures var r' := WithPods(r, id, pods);
            && Sane(r') && r'.instances.Keys == r.instances.Keys && IsActive(r', i) == IsActive(r, i)
            && (i in r.instances ==> r'.instances[i].job == r.instances[i].job && r'.instances[i].role == r.instances[i].role)
  {
  }

  /** The instances a step does not notify about keep job, role and being ACTIVE. */
  lemma Untouched(r: Registry, s: Step, id: int)
    requires Sane(r)
    requires Notified(r, s) != Some(id)
    ensures IsActive(Effect(r, s).0, id) == IsActive(r, id)
    ensures IsActive(r, id) ==>
      var x := Effect(r, s).0.instances[id]; x.job == r.instances[id].job && x.role == r.instances[id].role
  {
    match s
    case Heartbeat(i, ip, now, states) =>
      if i in r.instances {
        var pods := BeatPods(r.instances[i].pods, ip, now, states).0;
        PodsUntouched(r, i, pods, id);
        if BeatPods(r.instances[i].pods, ip, now, states).1 == Beaten {
          ReactUntouched(WithPods(r, i, pods), i, Observe(pods), false, now, id);
        }
      }
    case Tick(i, now, abnormal) =>
      if i in r.instances && !AllAlive(r.instances[i], now) { ReactUntouched(r, i, HeartbeatTimeout, abnormal, now, id); }
    case _ =>
  }

  /** The notified instance becomes ACTIVE on READY and stops being so on SEPARATED. */
  lemma NoticeMatchesStatus(r: Registry, s: Step)
    requires Sane(r)
    requires Notified(r, s).Some?
    ensures var n := Effect(r, s).1.value; var r' := Effect(r, s).0;
      && n.ins.id in r'.instances
      && r'.instances[n.ins.id].job == n.job && r'.instances[n.ins.id].role == n.ins.role
      && (n.note == Ready ==> !IsActive(r, n.ins.id) && IsActive(r', n.ins.id))
      && (n.note == Separated ==> !IsActive(r', n.ins.id))
  {
  }

  /** How a notified step relates the registries before and after, with the handlers abstracted away. */
  ghost predicate Notifies(r: Registry, r': Registry, n: Notice) {
    var id := n.ins.id;
    && id in r.instances && r.instances[id].job == n.job && r.instances[id].role == n.ins.role
    && id in r'.instances && r'.instances[id].job == n.job && r'.instances[id].role == n.ins.role
    && (forall i | i != id :: SameActive(r, r', i))
    && (n.note == Ready ==> !IsActive(r, id) && IsActive(r', id))
    && (n.note == Separated ==> !IsActive(r', id))
  }

  ghost predicate SameActive(r: Registry, r': Registry, i: int) {
    && IsActive(r, i) == IsActive(r', i)
    && (IsActive(r, i) ==> r'.instances[i].job == r.instances[i].job && r'.instances[i].role == r.instances[i].role)
  }

  lemma ReadyKeepsExact(r: Registry, r': Registry, announced: map<string, Announced>, n: Notice)
    requires Exact(Controller(r, announced)) && Notifies(r, r', n) && n.note == Ready
    ensures Exact(Controller(r', Remember(announced, n))) <==> !SharesJob(r, n.ins.id, n.job)
  {
    var after := Remember(announced, n);
    assert after[n.job] == n.ins;
    if SharesJob(r, n.ins.id, n.job) {
      var other :| other in r.instances && other != n.ins.id && IsActive(r, other) && r.instances[other].job == n.job;
      assert SameActive(r, r', other);
    } else {
      forall j | j in after && j != n.job
        ensures IsActive(r', announced[j].id) && r'.instances[announced[j].id].job == j
          && r'.instances[announced[j].id].role == announced[j].role
      {
        assert SameActive(r, r', announced[j].id);
      }
      forall id | IsActive(r', id) && id != n.ins.id
        ensures r'.instances[id].job in after && after[r'.instances[id].job].id == id
      {
        assert SameActive(r, r', id);
      }
    }
  }

  lemma SeparatedKeepsExact(r: Registry, r': Registry, announced: map<string, Announced>, n: Notice)
    requires Exact(Controller(r, announced)) && Notifies(r, r', n) && n.note == Separated
    ensures Exact(Controller(r', Remember(announced, n))) <==> !SharesJob(r, n.ins.id, n.job)
  {
    var after := Remember(announced, n);
    assert n.job !in after;
    if SharesJob(r, n.ins.id, n.job) {
      var other :| other in r.instances && other != n.ins.id && IsActive(r, other) && r.instances[other].job == n.job;
      assert SameActive(r, r', other);
    } else {
      forall j | j in after
        ensures IsActive(r', announced[j].id) && r'.instances[announced[j].id].job == j
          && r'.instances[announced[j].id].role == announced[j].role
      {
        assert j in announced && announced[j].id != n.ins.id;
        assert SameActive(r, r', announced[j].id);
      }
      forall id | IsActive(r', id)
        ensures r'.instances[id].job in after && after[r'.instances[id].job].id == id
      {
        assert SameActive(r, r', id);
      }
    }
  }

  lemma QuietKeepsExact(r: Registry, r': Registry, announced: map<string, Announced>)
    requires Exact(Controller(r, announced)) && forall i :: SameActive(r, r', i)
    ensures Exact(Controller(r', announced))
  {
    forall j | j in announced
      ensures IsActive(r', announced[j].id) && r'.instances[announced[j].id].job == j
        && r'.instances[announced[j].id].role == announced[j].role
    {
      assert SameActive(r, r', announced[j].id);
    }
    forall id | IsActive(r', id)
      ensures r'.instances[id].job in announced && announced[r'.instances[id].job].id == id
    {
      assert SameActive(r, r', id);
    }
  }

  /** Every handler call either concerns one instance, as `Notifies` says, or changes no ACTIVE instance. */
  lemma StepNotifies(r: Registry, s: Step)
    requires Sane(r)
    ensures var (r', n) := Effect(r, s);
      if Notified(r, s).Some? then Notifies(r, r', n.value) else forall i :: SameActive(r, r', i)
  {
    var (r', n) := Effect(r, s);
    forall i | Notified(r, s) != Some(i) ensures SameActive(r, r', i) {
      Untouched(r, s, i);
    }
    if Notified(r, s).Some? {
      NoticeIsAboutManaged(r, s);
      NoticeMatchesStatus(r, s);
    }
  }

  /** One step keeps announced = active exactly when it does not clash. */
  lemma ExactStep(c: Controller, s: Step)
    requires Sane(c.reg) && Exact(c)
    ensures Exact(Next(c, s)) <==> !Clashes(c.reg, s)
  {
    var (r', n) := Effect(c.reg, s);
    StepNotifies(c.reg, s);
    if Notified(c.reg, s).Some? {
      assert Clashes(c.reg, s) <==> SharesJob(c.reg, n.value.ins.id, n.value.job);
      if n.value.note == Ready {
        ReadyKeepsExact(c.reg, r', c.announced, n.value);
      } else {
        SeparatedKeepsExact(c.reg, r', c.announced, n.value);
      }
    } else {
      QuietKeepsExact(c.reg, r', c.announced);
    }
  }

  /** `P` at every state of a run, spelled out for the two predicates the theorem relates. */
  ghost predicate AlwaysExact(c: Controller, steps: seq<Step>)
    decreases |steps|
  {
    Exact(c) && (steps == [] || AlwaysExact(Next(c, steps[0]), steps[1..]))
  }

  ghost predicate NeverClashes(c: Controller, steps: seq<Step>)
    decreases |steps|
  {
    steps == [] || (!Clashes(c.reg, steps[0]) && NeverClashes(Next(c, steps[0]), steps[1..]))
  }

  function Run(c: Controller, steps: seq<Step>): Controller
    decreases |steps|
  {
    if steps == [] then c else Run(Next(c, steps[0]), steps[1..])
  }

  /**
   The announcement theorem: over every run of heartbeats, timeouts with either probe result,
   separations, recoveries, additions and deletions, the pusher's map holds exactly the ACTIVE
   instances at every point if and only if no step clashes.
   */
  lemma {:induction false} AnnouncedEqualsActive(c: Controller, steps: seq<Step>)
    requires Sane(c.reg) && Exact(c)
    ensures AlwaysExact(c, steps) <==> NeverClashes(c, steps)
    decreases |steps|
  {
    if steps != [] {
      ExactStep(c, steps[0]);
      NextKeepsSane(c.reg, steps[0]);
      if Exact(Next(c, steps[0])) {
        AnnouncedEqualsActive(Next(c, steps[0]), steps[1..]);
      }
    }
  }

  /** No two managed instances share a job name. */
  ghost predicate JobsDistinct(r: Registry) {
    forall i, j | i in r.instances && j in r.instances && r.instances[i].job == r.instances[j].job :: i == j
  }

  /** The step only adds instances whose job name nobody else carries. */
  ghost predicate FreshJob(r: Registry, s: Step) {
    s.AddInstance? ==> forall i | i in r.instances :: r.instances[i].job != s.job
  }

  ghost predicate AlwaysFreshJob(c: Controller, steps: seq<Step>)
    decreases |steps|
  {
    steps == [] || (FreshJob(c.reg, steps[0]) && AlwaysFreshJob(Next(c, steps[0]), steps[1..]))
  }

  /** A step changes no job name; the only instance it may bring in is the one it adds. */
  lemma StepKeepsJobs(r: Registry, s: Step)
    ensures var after := Effect(r, s).0.instances;
            forall i :: i in after ==>
              if i in r.instances then after[i].job == r.instances[i].job
              else s.AddInstance? && i == s.id && after[i].job == s.job
  {
    match s
    case Heartbeat(id, ip, now, states) =>
      if id in r.instances {
        var pods := BeatPods(r.instances[id].pods, ip, now, states).0;
        ReactKeepsJobs(WithPods(r, id, pods), id, Observe(pods), false, now);
      }
    case Tick(id, now, abnormal) =>
      if id in r.instances { ReactKeepsJobs(r, id, HeartbeatTimeout, abnormal, now); }
    case _ =>
  }

  lemma FreshJobKeepsDistinct(r: Registry, s: Step)
    requires JobsDistinct(r) && FreshJob(r, s)
    ensures JobsDistinct(Effect(r, s).0)
  {
    StepKeepsJobs(r, s);
  }

  lemma DistinctJobsNeverClash(r: Registry, s: Step)
    requires JobsDistinct(r)
    ensures !Clashes(r, s)
  {
  }

  /** Job names that are unique among managed instances rule out every clash. */
  lemma {:induction false} FreshJobsNeverClash(c: Controller, steps: seq<Step>)
    requires JobsDistinct(c.reg) && AlwaysFreshJob(c, steps)
    ensures NeverClashes(c, steps)
    decreases |steps|
  {
    if steps != [] {
      DistinctJobsNeverClash(c.reg, steps[0]);
      FreshJobKeepsDistinct(c.reg, steps[0]);
      FreshJobsNeverClash(Next(c, steps[0]), steps[1..]);
    }
  }

  /** The assembler's own rule: a job name is refused only while an ACTIVE instance carries it. */
  ghost predicate AssemblerAllows(c: Controller, steps: seq<Step>)
    decreases |steps|
  {
    steps == [] || (
      && (steps[0].AddInstance? ==> forall i | IsActive(c.reg, i) :: c.reg.instances[i].job != steps[0].job)
      && AssemblerAllows(Next(c, steps[0]), steps[1..]))
  }

  /** A prefill instance with one endpoint. */
  function Single(job: string, ip: string, st: Status, ep: EndpointStatus): Record {
    Record(job, Prefill, st, map[ip := [Endpoint(0, ep, 0.0)]])
  }

  /** A heartbeat that moves such an instance to ACTIVE or INACTIVE. */
  lemma BeatSingle(r: Registry, id: int, job: string, ip: string, st: Status, was: EndpointStatus, up: bool)
    requires id in r.instances && r.instances[id] == Single(job, ip, st, was) && r.forced == {}
    requires up ==> st == Initial || st == Inactive
    requires !up ==> st == Initial || st == Active
    ensures var ep := if up then EpNormal else EpAbnormal;
      Effect(r, Heartbeat(id, ip, 0.0, map[0 := ep])) ==
      (Registry(r.instances[id := Single(job, ip, if up then Active else Inactive, ep)], {}),
       Some(Notice(job, Announced(id, Prefill), if up then Ready else Separated)))
  {
    var ep := if up then EpNormal else EpAbnormal;
    var eps := r.instances[id].pods[ip];
    var states := map[0 := ep];
    var e := eps[0].(heartbeat := 0.0, status := ep);
    assert BeatPod(eps[1..], 0.0, states) == ([], Beaten);
    assert [e] + [] == [e];
    var pods := map[ip := [e]];
    assert r.instances[id].pods[ip := [e]] == pods;
    assert e in pods[ip];
    assert Observe(pods) == if up then InstanceNormal else InstanceAbnormal;
    var beaten := WithPods(r, id, pods);
    assert BeatPods(r.instances[id].pods, ip, 0.0, states) == (pods, Beaten);
    var final := if up then Active else Inactive;
    assert beaten.instances[id := beaten.instances[id].(status := final)]
        == r.instances[id := Single(job, ip, final, ep)];
  }

  lemma AddSingle(r: Registry, id: int, job: string, ip: string)
    requires id !in r.instances
    ensures Effect(r, AddInstance(id, job, Prefill, map[ip := [Endpoint(0, EpInitial, 0.0)]], 0.0)) ==
      (r.(instances := r.instances[id := Single(job, ip, Initial, EpInitial)]), None)
  {
    var one := [Endpoint(0, EpInitial, 0.0)];
    assert InitialReport(one) == map[0 := EpInitial] by { assert one[0] in one; }
    assert BeatPod(one[1..], 0.0, map[0 := EpInitial]) == ([], Beaten);
    assert BeatPod(one, 0.0, map[0 := EpInitial]).0 == one;
    assert Admit(map[ip := one], 0.0) == map[ip := one];
  }

  /** `rest` breaks announced = active from `c` although the assembler allows every step of it. */
  ghost predicate Breaks(c: Controller, rest: seq<Step>) {
    AssemblerAllows(c, rest) && !AlwaysExact(c, rest)
  }

  ghost predicate Breakable(c: Controller) {
    exists rest :: Breaks(c, rest)
  }

  lemma Prepend(c: Controller, s: Step)
    requires Breakable(Next(c, s))
    requires s.AddInstance? ==> forall i | IsActive(c.reg, i) :: c.reg.instances[i].job != s.job
    ensures Breakable(c)
  {
    var rest :| Breaks(Next(c, s), rest);
    assert ([s] + rest)[1..] == rest;
    assert Breaks(c, [s] + rest);
  }

  /** Instance 1 is down, instance 2 has registered under its job name: 1 returns, 2 fails. */
  lemma ReturnThenFail(c: Controller, job: string, ip: string)
    requires c == Controller(Registry(
      map[1 := Single(job, ip, Inactive, EpAbnormal), 2 := Single(job, ip, Initial, EpInitial)], {}), map[])
    ensures Breakable(c)
  {
    var up := Heartbeat(1, ip, 0.0, map[0 := EpNormal]);
    var down := Heartbeat(2, ip, 0.0, map[0 := EpAbnormal]);
    BeatSingle(c.reg, 1, job, ip, Inactive, EpAbnormal, true);
    var c' := Next(c, up);
    BeatSingle(c'.reg, 2, job, ip, Initial, EpInitial, false);
    var c'' := Next(c', down);
    assert IsActive(c''.reg, 1) && job !in c''.announced;
    assert Breaks(c'', []);
    Prepend(c', down);
    Prepend(c, up);
  }

  lemma RegisterAgain(c: Controller, job: string, ip: string)
    requires c == Controller(Registry(map[1 := Single(job, ip, Inactive, EpAbnormal)], {}), map[])
    ensures Breakable(c)
  {
    AddSingle(c.reg, 2, job, ip);
    var add := AddInstance(2, job, Prefill, map[ip := [Endpoint(0, EpInitial, 0.0)]], 0.0);
    ReturnThenFail(Next(c, add), job, ip);
    Prepend(c, add);
  }

  lemma FailOnce(c: Controller, job: string, ip: string)
    requires c == Controller(Registry(map[1 := Single(job, ip, Initial, EpInitial)], {}), map[])
    ensures Breakable(c)
  {
    var down := Heartbeat(1, ip, 0.0, map[0 := EpAbnormal]);
    BeatSingle(c.reg, 1, job, ip, Initial, EpInitial, false);
    RegisterAgain(Next(c, down), job, ip);
    Prepend(c, down);
  }

  /**
   That rule is not enough. Instance 1 fails, instance 2 registers under its job name, instance 1
   comes back, instance 2 fails while still INITIAL, and its withdrawal removes instance 1 from the map.
   */
  lemma SharedJobNameWithdrawsActive(job: string, ip: string)
    ensures Breakable(START)
  {
    AddSingle(START.reg, 1, job, ip);
    var add := AddInstance(1, job, Prefill, map[ip := [Endpoint(0, EpInitial, 0.0)]], 0.0);
    FailOnce(Next(START, add), job, ip);
    Prepend(START, add);
  }
}
