/**
 What each call of the controller does to statuses, endpoints, the pusher's map and its queue, for every
 state, without the transition table.
 */
module LifecycleOutcomes {
  import opened Prelude
  import opened EventPusher
  import opened Lifecycle

  /** Only this instance, and its place among the forcibly separated ids, may change. */
  ghost predicate OnlyTouches(before: Registry, after: Registry, id: int) {
    forall i | i != id ::
      && (i in after.instances <==> i in before.instances) && (i in after.forced <==> i in before.forced)
      && (i in before.instances ==> after.instances[i] == before.instances[i])
  }

  /** Map and event of a withdrawal: a DEL if the job name was announced. */
  predicate Withdraws(c: Controller, s: Step, job: string, ins: Announced) {
    && Next(c, s).announced == c.announced - {job}
    && Issued(c, s) == if job in c.announced then Some(Del(ins)) else None
  }

  predicate Announces(c: Controller, s: Step, job: string, ins: Announced) {
    Next(c, s).announced == c.announced[job := ins] && Issued(c, s) == Some(Add(ins))
  }

  predicate SaysNothing(c: Controller, s: Step) {
    Next(c, s).announced == c.announced && Issued(c, s) == None
  }

  // ---------------------------------------------------------------------------------------------
  // The management loop
  // ---------------------------------------------------------------------------------------------

  /** An endpoint was last heard more than five seconds ago, or five minutes if the instance is not ACTIVE. */
  predicate Overdue(x: Record, now: real) {
    exists ip | ip in x.pods :: exists k :: 0 <= k < |x.pods[ip]| && now - x.pods[ip][k].heartbeat > Limit(x.status)
  }

  function Limit(status: Status): real {
    if status == Active then 5.0 else 300.0
  }

  lemma OverdueIsDead(x: Record, now: real)
    ensures Overdue(x, now) <==> !AllAlive(x, now)
  {
    if Overdue(x, now) {
      var ip, k :| ip in x.pods && 0 <= k < |x.pods[ip]| && now - x.pods[ip][k].heartbeat > Limit(x.status);
      assert x.pods[ip][k] in x.pods[ip];
    }
    if !AllAlive(x, now) {
      var ip, e :| ip in x.pods && e in x.pods[ip] && now - e.heartbeat > Limit(x.status);
      var k :| 0 <= k < |x.pods[ip]| && x.pods[ip][k] == e;
      assert now - x.pods[ip][k].heartbeat > Limit(x.status);
    }
  }

  /** Only the heartbeats differ, and they are all `now`. */
  predicate Refreshed(before: Record, after: Record, now: real) {
    && after.job == before.job && after.role == before.role && after.status == before.status
    && after.pods.Keys == before.pods.Keys
    && forall ip | ip in before.pods ::
         && |after.pods[ip]| == |before.pods[ip]|
         && forall k | 0 <= k < |before.pods[ip]| :: after.pods[ip][k] == Endpoint(before.pods[ip][k].id, before.pods[ip][k].status, now)
  }

  /** The loop leaves an instance alone exactly as long as none of its endpoints is overdue. */
  lemma TimelyTick(c: Controller, id: int, now: real, abnormal: bool)
    requires id !in c.reg.instances || !Overdue(c.reg.instances[id], now)
    ensures Next(c, Tick(id, now, abnormal)) == c && Issued(c, Tick(id, now, abnormal)) == None
  {
    if id in c.reg.instances { OverdueIsDead(c.reg.instances[id], now); }
  }

  /**
   An overdue ACTIVE instance is made INACTIVE and withdrawn if its node managers confirm it, and gets
   fresh heartbeats if they do not; any other overdue instance leaves the registry.
   */
  lemma OverdueTick(c: Controller, id: int, now: real, abnormal: bool)
    requires Sane(c.reg) && id in c.reg.instances && Overdue(c.reg.instances[id], now)
    ensures var s, x := Tick(id, now, abnormal), c.reg.instances[id];
            var after := Next(c, s).reg;
            && OnlyTouches(c.reg, after, id)
            && (x.status == Active && abnormal ==>
                  && id in after.instances && after.instances[id] == x.(status := Inactive) && after.forced == c.reg.forced
                  && Withdraws(c, s, x.job, Announced(id, x.role)))
            && (x.status == Active && !abnormal ==>
                  id in after.instances && Refreshed(x, after.instances[id], now) && after.forced == c.reg.forced && SaysNothing(c, s))
            && (x.status != Active ==> id !in after.instances && id !in after.forced && SaysNothing(c, s))
  {
    OverdueIsDead(c.reg.instances[id], now);
  }

  // ---------------------------------------------------------------------------------------------
  // Heartbeats
  // ---------------------------------------------------------------------------------------------

  /** One pod's endpoints with the reported states and the time of the report. */
  predicate Reports(before: seq<Endpoint>, after: seq<Endpoint>, now: real, states: map<int, EndpointStatus>) {
    |after| == |before| &&
    forall k | 0 <= k < |before| :: before[k].id in states && after[k] == Endpoint(before[k].id, states[before[k].id], now)
  }

  /** A report that lacks an endpoint is applied up to it, and stamps it. */
  predicate ReportsUpTo(before: seq<Endpoint>, after: seq<Endpoint>, now: real, states: map<int, EndpointStatus>, n: nat) {
    && |after| == |before| && n < |before| && before[n].id !in states
    && Reports(before[..n], after[..n], now, states)
    && after[n] == before[n].(heartbeat := now)
    && after[n + 1..] == before[n + 1..]
  }

  lemma {:induction false} BeatPodReports(eps: seq<Endpoint>, now: real, states: map<int, EndpointStatus>)
    ensures BeatPod(eps, now, states).1 == Beaten ==> Reports(eps, BeatPod(eps, now, states).0, now, states)
  {
    if eps != [] { BeatPodReports(eps[1..], now, states); }
  }

  lemma {:induction false} BeatPodStops(eps: seq<Endpoint>, now: real, states: map<int, EndpointStatus>, n: nat)
    requires n < |eps| && eps[n].id !in states && forall k | 0 <= k < n :: eps[k].id in states
    ensures ReportsUpTo(eps, BeatPod(eps, now, states).0, now, states, n) && BeatPod(eps, now, states).1 == MissingEndpoint
    decreases n
  {
    if n > 0 {
      BeatPodStops(eps[1..], now, states, n - 1);
      var after, rest := BeatPod(eps, now, states).0, BeatPod(eps[1..], now, states).0;
      assert after[1..] == rest;
      assert after[n + 1..] == rest[n..] && eps[n + 1..] == eps[1..][n..];
      forall k | 0 <= k < n ensures after[..n][k] == Endpoint(eps[k].id, states[eps[k].id], now) {
        if k > 0 { assert rest[..n - 1][k - 1] == after[k] && eps[1..][..n - 1][k - 1] == eps[k]; }
      }
    }
  }

  /** The report is for a pod of the instance and gives as many states as it has endpoints, one for each. */
  predicate Complete(x: Record, ip: string, states: map<int, EndpointStatus>) {
    && ip in x.pods && |x.pods[ip]| == |states|
    && forall k | 0 <= k < |x.pods[ip]| :: x.pods[ip][k].id in states
  }

  predicate EveryEndpoint(pods: Pods, status: EndpointStatus) {
    forall ip | ip in pods :: forall k | 0 <= k < |pods[ip]| :: pods[ip][k].status == status
  }

  predicate SomeEndpoint(pods: Pods, status: EndpointStatus) {
    exists ip | ip in pods :: exists k | 0 <= k < |pods[ip]| :: pods[ip][k].status == status
  }

  lemma ReadyMeans(pods: Pods)
    ensures AllReady(pods) <==> EveryEndpoint(pods, EpNormal)
  {
    if AllReady(pods) {
      forall ip, k | ip in pods && 0 <= k < |pods[ip]| ensures pods[ip][k].status == EpNormal {
        assert pods[ip][k] in pods[ip];
      }
    }
  }

  lemma AbnormalMeans(pods: Pods)
    ensures AnyAbnormal(pods) <==> SomeEndpoint(pods, EpAbnormal)
  {
    if SomeEndpoint(pods, EpAbnormal) {
      var ip, k :| ip in pods && 0 <= k < |pods[ip]| && pods[ip][k].status == EpAbnormal;
      assert pods[ip][k] in pods[ip];
    }
  }

  lemma CompleteBeat(x: Record, ip: string, now: real, states: map<int, EndpointStatus>)
    requires Complete(x, ip, states)
    ensures var (pods, b) := BeatPods(x.pods, ip, now, states);
            && b == Beaten && pods.Keys == x.pods.Keys && Reports(x.pods[ip], pods[ip], now, states)
            && forall other | other in x.pods && other != ip :: pods[other] == x.pods[other]
  {
    BeatenIff(x.pods[ip], now, states);
    BeatPodReports(x.pods[ip], now, states);
  }

  /** A reaction to anything but a timeout touches the status at most. */
  lemma ReactSetsStatus(r: Registry, id: int, event: Condition)
    requires Sane(r) && id in r.instances && event != HeartbeatTimeout
    ensures var after := React(r, id, event, false, 0.0).0;
            && OnlyTouches(r, after, id) && id in after.instances && after.forced == r.forced
            && after.instances[id] == r.instances[id].(status := after.instances[id].status)
  {
  }

  /** The time matters only where heartbeats are stamped. */
  lemma ReactIgnoresTime(r: Registry, id: int, event: Condition, now: real)
    requires id in r.instances && event != HeartbeatTimeout
    ensures React(r, id, event, false, now) == React(r, id, event, false, 0.0)
  {
  }

  /** A complete heartbeat is the report and then the reaction to what it shows. */
  lemma HeartbeatReacts(c: Controller, id: int, ip: string, now: real, states: map<int, EndpointStatus>)
    requires Sane(c.reg) && id in c.reg.instances && Complete(c.reg.instances[id], ip, states)
    ensures var pods := BeatPods(c.reg.instances[id].pods, ip, now, states).0;
            var o := React(WithPods(c.reg, id, pods), id, Observe(pods), false, 0.0);
            Effect(c.reg, Heartbeat(id, ip, now, states)) == (o.0, o.1)
  {
    var pods := BeatPods(c.reg.instances[id].pods, ip, now, states).0;
    CompleteBeat(c.reg.instances[id], ip, now, states);
    ReactIgnoresTime(WithPods(c.reg, id, pods), id, Observe(pods), now);
  }

  /** A complete heartbeat stamps and sets the endpoints of its pod and no others. */
  lemma HeartbeatSetsEndpoints(c: Controller, id: int, ip: string, now: real, states: map<int, EndpointStatus>)
    requires Sane(c.reg) && id in c.reg.instances && Complete(c.reg.instances[id], ip, states)
    ensures var x, after := c.reg.instances[id], Next(c, Heartbeat(id, ip, now, states)).reg;
            && OnlyTouches(c.reg, after, id) && id in after.instances && after.forced == c.reg.forced
            && var y := after.instances[id];
            && y.job == x.job && y.role == x.role && y.pods.Keys == x.pods.Keys
            && Reports(x.pods[ip], y.pods[ip], now, states)
            && (forall other | other in x.pods && other != ip :: y.pods[other] == x.pods[other])
  {
    var pods := BeatPods(c.reg.instances[id].pods, ip, now, states).0;
    CompleteBeat(c.reg.instances[id], ip, now, states);
    HeartbeatReacts(c, id, ip, now, states);
    ReactSetsStatus(WithPods(c.reg, id, pods), id, Observe(pods));
  }

  /**
   After a complete heartbeat: with every endpoint NORMAL the instance is ACTIVE and announced, unless it is
   forcibly separated; with one ABNORMAL it is INACTIVE and withdrawn; otherwise it is INITIAL, or still
   ACTIVE if it was.
   */
  lemma HeartbeatDecides(c: Controller, id: int, ip: string, now: real, states: map<int, EndpointStatus>)
    requires Sane(c.reg) && id in c.reg.instances && Complete(c.reg.instances[id], ip, states)
    ensures var s, x := Heartbeat(id, ip, now, states), c.reg.instances[id];
            id in Next(c, s).reg.instances && var y := Next(c, s).reg.instances[id];
            && (EveryEndpoint(y.pods, EpNormal) && id !in c.reg.forced ==>
                  && y.status == Active
                  && if x.status == Active then SaysNothing(c, s) else Announces(c, s, x.job, Announced(id, x.role)))
            && (EveryEndpoint(y.pods, EpNormal) && id in c.reg.forced ==> y.status == x.status && SaysNothing(c, s))
            && (!EveryEndpoint(y.pods, EpNormal) && SomeEndpoint(y.pods, EpAbnormal) ==>
                  && y.status == Inactive
                  && if x.status == Inactive then SaysNothing(c, s) else Withdraws(c, s, x.job, Announced(id, x.role)))
            && (!EveryEndpoint(y.pods, EpNormal) && !SomeEndpoint(y.pods, EpAbnormal) ==>
                  y.status == (if x.status == Active then Active else Initial) && SaysNothing(c, s))
  {
    var x := c.reg.instances[id];
    var pods := BeatPods(x.pods, ip, now, states).0;
    HeartbeatReacts(c, id, ip, now, states);
    ReactSetsStatus(WithPods(c.reg, id, pods), id, Observe(pods));
    ReadyMeans(pods);
    AbnormalMeans(pods);
  }

  /** A heartbeat of an unknown instance or pod, or with the wrong number of states, changes nothing. */
  lemma StrangeHeartbeat(c: Controller, id: int, ip: string, now: real, states: map<int, EndpointStatus>)
    requires id !in c.reg.instances || ip !in c.reg.instances[id].pods || |c.reg.instances[id].pods[ip]| != |states|
    ensures Next(c, Heartbeat(id, ip, now, states)) == c && Issued(c, Heartbeat(id, ip, now, states)) == None
  {
    if id in c.reg.instances {
      var r := c.reg;
      var x := r.instances[id];
      assert BeatPods(x.pods, ip, now, states).0 == x.pods;
      assert r.instances[id := x] == r.instances;
    }
  }

  /** One that lacks a state is applied up to the missing one and decides nothing. */
  lemma ShortHeartbeat(c: Controller, id: int, ip: string, now: real, states: map<int, EndpointStatus>, n: nat)
    requires id in c.reg.instances && ip in c.reg.instances[id].pods && |c.reg.instances[id].pods[ip]| == |states|
    requires var eps := c.reg.instances[id].pods[ip];
             n < |eps| && eps[n].id !in states && forall k | 0 <= k < n :: eps[k].id in states
    ensures var s, x := Heartbeat(id, ip, now, states), c.reg.instances[id];
            var after := Next(c, s).reg;
            && SaysNothing(c, s) && OnlyTouches(c.reg, after, id) && id in after.instances && after.forced == c.reg.forced
            && ip in after.instances[id].pods && after.instances[id] == x.(pods := x.pods[ip := after.instances[id].pods[ip]])
            && ReportsUpTo(x.pods[ip], after.instances[id].pods[ip], now, states, n)
  {
    BeatPodStops(c.reg.instances[id].pods[ip], now, states, n);
  }

  // ---------------------------------------------------------------------------------------------
  // Admission and separation
  // ---------------------------------------------------------------------------------------------

  predicate DistinctIds(eps: seq<Endpoint>) {
    forall i, j | 0 <= i < j < |eps| :: eps[i].id != eps[j].id
  }

  function IdsOf(eps: seq<Endpoint>): set<int> {
    set e | e in eps :: e.id
  }

  lemma IdsOfLast(eps: seq<Endpoint>)
    requires eps != []
    ensures IdsOf(eps) == IdsOf(eps[..|eps| - 1]) + {eps[|eps| - 1].id}
  {
    assert eps == eps[..|eps| - 1] + [eps[|eps| - 1]];
  }

  lemma {:induction false} DistinctIdsCount(eps: seq<Endpoint>)
    requires DistinctIds(eps)
    ensures |IdsOf(eps)| == |eps|
    decreases |eps|
  {
    if eps != [] {
      var n := |eps| - 1;
      DistinctIdsCount(eps[..n]);
      IdsOfLast(eps);
      assert eps[n].id !in IdsOf(eps[..n]) by {
        assert forall k | 0 <= k < n :: eps[..n][k] == eps[k];
      }
    }
  }

  lemma ReportOfDistinct(eps: seq<Endpoint>)
    requires DistinctIds(eps)
    ensures |InitialReport(eps)| == |eps|
    ensures forall k | 0 <= k < |eps| :: eps[k].id in InitialReport(eps) && InitialReport(eps)[eps[k].id] == EpInitial
  {
    DistinctIdsCount(eps);
    assert InitialReport(eps).Keys == IdsOf(eps);
    forall k | 0 <= k < |eps| ensures eps[k].id in InitialReport(eps) {
      assert eps[k] in eps;
    }
  }

  /** A new instance is INITIAL, and so are its endpoints, all heard now; a known id is left as it is. */
  lemma AdmissionOutcome(c: Controller, id: int, job: string, role: Role, pods: Pods, now: real)
    requires forall ip | ip in pods :: DistinctIds(pods[ip])
    ensures var s := AddInstance(id, job, role, pods, now);
            var after := Next(c, s).reg;
            && SaysNothing(c, s) && OnlyTouches(c.reg, after, id) && after.forced == c.reg.forced && id in after.instances
            && (id in c.reg.instances ==> after == c.reg)
            && (id !in c.reg.instances ==>
                  var x := after.instances[id];
                  && x.job == job && x.role == role && x.status == Initial && x.pods.Keys == pods.Keys
                  && forall ip | ip in pods ::
                       && |x.pods[ip]| == |pods[ip]|
                       && forall k | 0 <= k < |pods[ip]| :: x.pods[ip][k] == Endpoint(pods[ip][k].id, EpInitial, now))
  {
    forall ip | ip in pods ensures Reports(pods[ip], Admit(pods, now)[ip], now, InitialReport(pods[ip])) {
      ReportOfDistinct(pods[ip]);
      BeatenIff(pods[ip], now, InitialReport(pods[ip]));
      BeatPodReports(pods[ip], now, InitialReport(pods[ip]));
    }
    forall ip, k | ip in pods && 0 <= k < |pods[ip]| ensures Admit(pods, now)[ip][k] == Endpoint(pods[ip][k].id, EpInitial, now) {
      ReportOfDistinct(pods[ip]);
      assert Reports(pods[ip], Admit(pods, now)[ip], now, InitialReport(pods[ip]));
    }
  }

  /** A managed instance is forcibly separated and, if it was ACTIVE, made INACTIVE and withdrawn. */
  lemma SeparationOutcome(c: Controller, id: int)
    requires id in c.reg.instances
    ensures var s, x := Separate(id), c.reg.instances[id];
            var after := Next(c, s).reg;
            && OnlyTouches(c.reg, after, id) && id in after.forced && id in after.instances
            && after.instances[id] == (if x.status == Active then x.(status := Inactive) else x)
            && if x.status == Active then Withdraws(c, s, x.job, Announced(id, x.role)) else SaysNothing(c, s)
  {
  }

  /** Recovery takes the mark away and nothing else; the next heartbeat decides. */
  lemma RecoveryOutcome(c: Controller, id: int)
    ensures var after := Next(c, Recover(id)).reg;
            && SaysNothing(c, Recover(id)) && after.instances == c.reg.instances
            && (id in c.reg.instances ==> after.forced == c.reg.forced - {id})
            && (id !in c.reg.instances ==> after.forced == c.reg.forced)
  {
  }
}
