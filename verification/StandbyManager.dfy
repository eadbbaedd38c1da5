/**
 The objects a pod elects itself with: the lock, the lease bookkeeping of its etcd client, and the
 manager that runs the loop. What the server answers to each call is a parameter; each pass through the
 loop is shown to be a path of the election protocol.
 */
module StandbyManager {
  import opened Prelude
  import opened KeyRange
  import opened Persistence
  import LE = LeaderElection

  type Lease = LE.Lease

  datatype Call = LeaseGrant | Txn(lease: Lease) | LeaseRevoke(granted: Option<Lease>)

  /**
   The answers one pass may receive: the lease granted, whether the transaction succeeded, the answer to
   the keep-alive (whether the remaining time is positive). None is a call that fails.
   */
  datatype Answers = Answers(grant: Option<Lease>, txn: Option<bool>, renew: Option<bool>)

  class Lock {
    const name: Key
    var leaseId: Option<Lease>

    constructor (name: Key)
      ensures this.name == name && leaseId == None
    {
      this.name := name;
      leaseId := None;
    }

    /** Grant, create if absent, and revoke on any failure, also when there is no lease to revoke. */
    method Acquire(a: Answers) returns (ok: bool, sent: seq<Call>)
      requires leaseId == None
      modifies this
      ensures ok <==> a.grant.Some? && a.txn == Some(true)
      ensures leaseId == a.grant
      ensures a.grant == None ==> sent == [LeaseGrant, LeaseRevoke(None)]
      ensures a.grant.Some? ==> sent == [LeaseGrant, Txn(a.grant.value)] + if ok then [] else [LeaseRevoke(a.grant)]
    {
      sent := [LeaseGrant];
      leaseId := a.grant;
      if leaseId.Some? {
        sent := sent + [Txn(leaseId.value)];
        if a.txn == Some(true) {
          return true, sent;
        }
      }
      sent := sent + [LeaseRevoke(leaseId)];
      ok := false;
    }
  }

  class EtcdClient {
    const site: Site
    var leases: map<Key, Lease>

    constructor (site: Site)
      ensures this.site == site && leases == map[]
    {
      this.site := site;
      leases := map[];
    }

    method AcquireLock(key: Key, a: Answers) returns (ok: bool)
      modifies this
      ensures ok <==> site.Full(key) !in old(leases) && a.grant.Some? && a.txn == Some(true)
      ensures leases == if ok then old(leases)[site.Full(key) := a.grant.value] else old(leases)
    {
      var full := site.Full(key);
      if full in leases {
        return false;
      }
      var lock := new Lock(full);
      var sent;
      ok, sent := lock.Acquire(a);
      if ok {
        leases := leases[full := lock.leaseId.value];
      }
    }

    /** The lease is forgotten whether or not the revocation succeeds; `revoked` is only the result. */
    method ReleaseLock(key: Key, revoked: bool) returns (ok: bool)
      modifies this
      ensures ok <==> site.Full(key) in old(leases) && revoked
      ensures leases == old(leases) - {site.Full(key)}
    {
      var full := site.Full(key);
      if full !in leases {
        return false;
      }
      leases := leases - {full};
      ok := revoked;
    }

    /** A failed renewal releases the key it has already namespaced. */
    method RenewLease(key: Key, renew: Option<bool>, revoked: bool) returns (ok: bool)
      modifies this
      ensures ok <==> site.Full(key) in old(leases) && renew == Some(true)
      ensures leases == if ok || site.Full(key) !in old(leases) then old(leases) else old(leases) - {site.Full(site.Full(key))}
    {
      var full := site.Full(key);
      if full !in leases {
        return false;
      }
      if renew == Some(true) {
        return true;
      }
      var _ := ReleaseLock(full, revoked);
      ok := false;
    }
  }

  /** A release in progress, from its call to the end of the pass. */
  function Settle(c: LE.Config, v: LE.Node): LE.Node {
    var d := if v.phase.AskRevoke? then LE.Fail(c, v) else v;
    if d.phase.Demoting? then LE.Continue(c, d) else d
  }

  /** The end of an attempt whose transaction is answered. */
  function TxnEnds(c: LE.Config, t: LE.Node, a: Answers): LE.Node
    requires a.grant.Some? && a.txn.Some?
  {
    var r := LE.Continue(c, t.(phase := LE.GotTxn(a.grant.value, a.txn.value)));
    LE.Continue(c, if a.txn.value then r else r.(phase := LE.GotUndo))
  }

  function AttemptEnds(c: LE.Config, b: LE.Node, a: Answers): LE.Node {
    if a.grant == None then LE.Fail(c, b)
    else
      var t := LE.Continue(c, b.(phase := LE.GotGrant(a.grant.value)));
      if a.txn == None then LE.Continue(c, LE.Fail(c, t).(phase := LE.GotUndo)) else TxnEnds(c, t, a)
  }

  function RenewEnds(c: LE.Config, b: LE.Node, a: Answers): LE.Node {
    if a.renew == None then LE.Fail(c, b) else LE.Continue(c, b.(phase := LE.GotRenew(a.renew.value)))
  }

  /** One whole pass through the loop, as moves of the protocol. */
  function Pass(c: LE.Config, v: LE.Node, a: Answers): LE.Node {
    var b := LE.Begin(c, v);
    match b.phase
    case AskGrant => AttemptEnds(c, b, a)
    case AskRenew(_) => Settle(c, RenewEnds(c, b, a))
    case Demoting(_) => LE.Continue(c, b)
    case _ => b
  }

  function Passes(c: LE.Config, v: LE.Node, answers: seq<Answers>): LE.Node {
    if answers == [] then v
    else Pass(c, Passes(c, v, answers[..|answers| - 1]), answers[|answers| - 1])
  }

  lemma NothingToForget(leases: map<Key, Lease>, key: Key)
    ensures key !in leases ==> leases - {key} == leases
  {
  }

  /** At a loop head, master exactly when a lease is recorded for the lock, and none for another key. */
  predicate AtHeadInStep(c: LE.Config, v: LE.Node) {
    v.phase == LE.Idle && v.leases.Keys <= {c.Lock()} && (v.role == LE.Master <==> c.Lock() in v.leases)
  }

  class Manager {
    const config: LE.Config
    const client: EtcdClient
    var currentRole: LE.StandbyRole

    ghost predicate Valid()
      reads this, client
    {
      client.site == config.site
    }

    /** The manager at the head of its loop, as a node of the protocol. */
    ghost function AtHead(): LE.Node
      reads this, client
    {
      LE.Node(currentRole, client.leases, LE.Idle)
    }

    constructor (config: LE.Config)
      ensures Valid() && AtHead() == LE.FRESH && fresh(client)
    {
      this.config := config;
      this.client := new EtcdClient(config.site);
      currentRole := LE.Standby;
    }

    /** The client turns every failure into a refusal, so the retries of the source are never used. */
    method TryBecomeMaster(a: Answers) returns (won: bool)
      requires Valid()
      modifies this, client
      ensures Valid()
      ensures won <==> config.Lock() !in old(client.leases) && a.grant.Some? && a.txn == Some(true)
      ensures currentRole == if won then LE.Master else LE.Standby
      ensures client.leases == if won then old(client.leases)[config.Lock() := a.grant.value] else old(client.leases)
    {
      won := client.AcquireLock(config.key, a);
      currentRole := if won then LE.Master else LE.Standby;
    }

    method RenewMasterLock(a: Answers, revoked: bool) returns (ok: bool)
      requires Valid()
      modifies client
      ensures Valid()
      ensures ok <==> currentRole == LE.Master && config.Lock() in old(client.leases) && a.renew == Some(true)
      ensures client.leases ==
              if ok || currentRole == LE.Standby || config.Lock() !in old(client.leases) then old(client.leases)
              else old(client.leases) - {config.Again()}
    {
      if currentRole != LE.Master {
        return false;
      }
      ok := client.RenewLease(config.key, a.renew, revoked);
    }

    method LoopBody(a: Answers, revoked: bool)
      requires Valid()
      modifies this, client
      ensures Valid()
      ensures AtHead() == Pass(config, old(AtHead()), a)
    {
      if currentRole == LE.Master {
        var renewed := RenewMasterLock(a, revoked);
        if !renewed {
          currentRole := LE.Standby;
        }
        NothingToForget(old(client.leases), config.Again());
      } else {
        var _ := TryBecomeMaster(a);
      }
    }

    /** A master that stops gives the lock back. */
    method Leave(revoked: bool)
      requires Valid()
      modifies this, client
      ensures Valid() && currentRole == LE.Standby
      ensures client.leases == if old(currentRole) == LE.Master then old(client.leases) - {config.Lock()} else old(client.leases)
      ensures AtHead() == Settle(config, LE.Halt(config, old(AtHead()))).(phase := LE.Idle)
    {
      if currentRole == LE.Master {
        ghost var before := client.leases;
        var _ := client.ReleaseLock(config.key, revoked);
        assert config.Lock() !in before ==> before - {config.Lock()} == before;
        currentRole := LE.Standby;
      }
    }

    /** The loop until it is told to stop, and the release after it. */
    method MasterStandbyLoop(answers: seq<Answers>, revoked: seq<bool>)
      requires Valid() && |revoked| == |answers| + 1
      modifies this, client
      ensures Valid() && currentRole == LE.Standby
      ensures var v := Passes(config, old(AtHead()), answers);
              && AtHead() == Settle(config, LE.Halt(config, v)).(phase := LE.Idle)
              && (v.role == LE.Master ==> config.Lock() !in client.leases)
      ensures config.Stable() && AtHeadInStep(config, old(AtHead())) ==> client.leases == map[]
    {
      for i := 0 to |answers|
        invariant Valid()
        invariant AtHead() == Passes(config, old(AtHead()), answers[..i])
      {
        LoopBody(answers[i], revoked[i]);
        assert answers[..i + 1][..i] == answers[..i];
      }
      assert answers[..|answers|] == answers;
      if config.Stable() && AtHeadInStep(config, old(AtHead())) {
        PassesKeepRule(config, old(AtHead()), answers);
      }
      Leave(revoked[|answers|]);
    }
  }

  /**
   Every pass that starts at a loop head ends at one, and with a stable key it keeps the rule that a node
   is master exactly when it records a lease; after a master's failed renewal nothing is recorded.
   */
  lemma PassKeepsRule(c: LE.Config, v: LE.Node, a: Answers)
    requires v.phase == LE.Idle && v.leases.Keys <= {c.Lock()}
    requires v.role == LE.Master <==> c.Lock() in v.leases
    ensures Pass(c, v, a).phase == LE.Idle && Pass(c, v, a).leases.Keys <= {c.Lock()}
    ensures Pass(c, v, a).role == LE.Master <==>
            if v.role == LE.Master then a.renew == Some(true) else a.grant.Some? && a.txn == Some(true)
    ensures (Pass(c, v, a).role == LE.Master <==> c.Lock() in Pass(c, v, a).leases)
            <==> (c.Stable() || v.role == LE.Standby || a.renew == Some(true))
  {
    if v.role == LE.Master {
      MasterPassKeepsRule(c, v, a);
    }
  }

  lemma MasterPassKeepsRule(c: LE.Config, v: LE.Node, a: Answers)
    requires v.phase == LE.Idle && v.leases.Keys == {c.Lock()} && v.role == LE.Master
    ensures var after := Pass(c, v, a);
      && after.phase == LE.Idle && after.leases.Keys <= {c.Lock()}
      && (after.role == LE.Master <==> a.renew == Some(true))
      && ((after.role == LE.Master <==> c.Lock() in after.leases) <==> (c.Stable() || a.renew == Some(true)))
  {
    if c.Again() != c.Lock() {
      assert c.Again() !in v.leases;
    }
  }

  /** Over any number of passes with a stable key. */
  lemma {:induction false} PassesKeepRule(c: LE.Config, v: LE.Node, answers: seq<Answers>)
    requires c.Stable() && v.phase == LE.Idle && v.leases.Keys <= {c.Lock()}
    requires v.role == LE.Master <==> c.Lock() in v.leases
    ensures var w := Passes(c, v, answers);
            w.phase == LE.Idle && w.leases.Keys <= {c.Lock()} && (w.role == LE.Master <==> c.Lock() in w.leases)
    decreases |answers|
  {
    if answers != [] {
      PassesKeepRule(c, v, answers[..|answers| - 1]);
      PassKeepsRule(c, Passes(c, v, answers[..|answers| - 1]), answers[|answers| - 1]);
    }
  }

  // ---------------------------------------------------------------------------------------------
  // A pass is a run of the protocol
  // ---------------------------------------------------------------------------------------------

  /** The server can give these answers: leases are numbered by it, and a dead one is not kept alive. */
  predicate Feasible(c: LE.Config, w: LE.World, n: nat, a: Answers)
    requires n < |w.nodes|
  {
    && (a.grant.Some? ==> a.grant.value == w.next)
    && (a.renew == Some(true) && c.Lock() in w.nodes[n].leases ==> w.nodes[n].leases[c.Lock()] in w.live)
  }

  /** The lease must have ended for a refusal, and the lock must be free for a win. */
  function Around(w: LE.World, l: Lease, won: bool): seq<LE.Step> {
    if !won then [LE.Expire(l)] else if w.holder.Some? then [LE.Expire(w.holder.value)] else []
  }

  /** The steps of node and server, and of the environment where the answer calls for it. */
  function AttemptSteps(w: LE.World, n: nat, a: Answers): seq<LE.Step> {
    if a.grant == None then [LE.Lose(n)]
    else
      [LE.Serve(n), LE.Receive(n)] +
      (if a.txn == None then [LE.Lose(n), LE.Lose(n)]
       else Around(w, a.grant.value, a.txn.value) + [LE.Serve(n), LE.Receive(n)] + if a.txn.value then [LE.Receive(n)] else [LE.Lose(n)])
  }

  function RenewSteps(n: nat, l: Lease, a: Answers): seq<LE.Step> {
    if a.renew == None then [LE.Lose(n)]
    else (if a.renew.value then [] else [LE.Expire(l)]) + [LE.Serve(n), LE.Receive(n)]
  }

  lemma RunOne(c: LE.Config, w: LE.World, s: LE.Step)
    ensures LE.Run(c, w, [s]) == LE.Take(c, w, s)
  {
    assert [s][1..] == [];
    assert LE.Run(c, LE.Take(c, w, s), []) == LE.Take(c, w, s);
  }

  lemma RunTwo(c: LE.Config, w: LE.World, s: LE.Step, t: LE.Step)
    ensures LE.Run(c, w, [s, t]) == LE.Take(c, LE.Take(c, w, s), t)
  {
    assert [s, t][1..] == [t];
    RunOne(c, LE.Take(c, w, s), t);
  }

  /** The lease service: a request for a lease, and its answer or its loss. */
  lemma GrantRuns(c: LE.Config, w: LE.World, n: nat, v: LE.Node)
    requires n < |w.nodes| && w.nodes[n] == v && v.phase == LE.AskGrant
    ensures var u := LE.Run(c, w, [LE.Serve(n), LE.Receive(n)]);
            && |u.nodes| == |w.nodes| && u.nodes[n] == v.(phase := LE.AskTxn(w.next))
            && u.holder == w.holder && u.live == w.live + {w.next} && u.next == w.next + 1
  {
    RunTwo(c, w, LE.Serve(n), LE.Receive(n));
    assert LE.Take(c, w, LE.Serve(n)).nodes[n].phase == LE.GotGrant(w.next);
  }

  /** With the environment in its way or not, the transaction ends as the answer says. */
  lemma TxnRuns(c: LE.Config, w: LE.World, n: nat, v: LE.Node, l: Lease, won: bool)
    requires n < |w.nodes| && w.nodes[n] == v && v.phase == LE.AskTxn(l) && l in w.live && w.holder != Some(l)
    ensures var u := LE.Run(c, w, Around(w, l, won) + [LE.Serve(n), LE.Receive(n)]);
            && |u.nodes| == |w.nodes|
            && u.nodes[n] == if won then v.(leases := v.leases[c.Lock() := l], phase := LE.Recorded) else v.(phase := LE.AskUndo(l))
  {
    LE.RunSplits(c, w, Around(w, l, won), [LE.Serve(n), LE.Receive(n)]);
    var u := LE.Run(c, w, Around(w, l, won));
    if Around(w, l, won) != [] { RunOne(c, w, Around(w, l, won)[0]); }
    assert u.nodes == w.nodes && LE.Wins(u, l) == won;
    RunTwo(c, u, LE.Serve(n), LE.Receive(n));
    assert LE.Take(c, u, LE.Serve(n)).nodes[n].phase == LE.GotTxn(l, won);
  }

  lemma AttemptRuns(c: LE.Config, w: LE.World, n: nat, a: Answers)
    requires LE.ServerOk(w) && n < |w.nodes| && w.nodes[n].phase == LE.AskGrant && w.nodes[n].role == LE.Standby
    requires a.grant.Some? ==> a.grant.value == w.next
    ensures n < |LE.Run(c, w, AttemptSteps(w, n, a)).nodes|
    ensures LE.Run(c, w, AttemptSteps(w, n, a)).nodes[n] == AttemptEnds(c, w.nodes[n], a)
  {
    if a.grant == None {
      RunOne(c, w, LE.Lose(n));
    } else {
      var rest := AttemptSteps(w, n, a)[2..];
      assert AttemptSteps(w, n, a) == [LE.Serve(n), LE.Receive(n)] + rest;
      LE.RunSplits(c, w, [LE.Serve(n), LE.Receive(n)], rest);
      GrantRuns(c, w, n, w.nodes[n]);
      var u := LE.Run(c, w, [LE.Serve(n), LE.Receive(n)]);
      if a.txn == None {
        RunTwo(c, u, LE.Lose(n), LE.Lose(n));
      } else {
        TxnAnswered(c, u, n, a);
      }
    }
  }

  /** From a sent transaction to the end of the attempt. */
  lemma TxnAnswered(c: LE.Config, u: LE.World, n: nat, a: Answers)
    requires n < |u.nodes| && a.grant.Some? && a.txn.Some? && a.grant.value in u.live && u.holder != Some(a.grant.value)
    requires u.nodes[n].phase == LE.AskTxn(a.grant.value)
    ensures var last := if a.txn.value then [LE.Receive(n)] else [LE.Lose(n)];
            var z := LE.Run(c, u, Around(u, a.grant.value, a.txn.value) + [LE.Serve(n), LE.Receive(n)] + last);
            n < |z.nodes| && z.nodes[n] == TxnEnds(c, u.nodes[n], a)
  {
    var steps := Around(u, a.grant.value, a.txn.value) + [LE.Serve(n), LE.Receive(n)];
    var last := if a.txn.value then [LE.Receive(n)] else [LE.Lose(n)];
    TxnRuns(c, u, n, u.nodes[n], a.grant.value, a.txn.value);
    LE.RunSplits(c, u, steps, last);
    RunOne(c, LE.Run(c, u, steps), last[0]);
  }

  /** A renewal with its answer, up to the release if it fails. */
  lemma RenewRuns(c: LE.Config, w: LE.World, n: nat, l: Lease, a: Answers)
    requires n < |w.nodes| && w.nodes[n].phase == LE.AskRenew(l) && (a.renew == Some(true) ==> l in w.live)
    ensures var u := LE.Run(c, w, RenewSteps(n, l, a));
            n < |u.nodes| && u.nodes[n] == RenewEnds(c, w.nodes[n], a)
  {
    if a.renew == None {
      RunOne(c, w, LE.Lose(n));
    } else {
      var first: seq<LE.Step> := if a.renew.value then [] else [LE.Expire(l)];
      LE.RunSplits(c, w, first, [LE.Serve(n), LE.Receive(n)]);
      if first != [] { RunOne(c, w, first[0]); }
      var u := LE.Run(c, w, first);
      assert u.nodes == w.nodes && (l in u.live <==> a.renew.value);
      RunTwo(c, u, LE.Serve(n), LE.Receive(n));
      assert LE.Take(c, u, LE.Serve(n)).nodes[n].phase == LE.GotRenew(a.renew.value);
    }
  }

  /** A release under way ends with at most two more steps. */
  function SettleSteps(n: nat, v: LE.Node): seq<LE.Step> {
    if v.phase.AskRevoke? then [LE.Lose(n), LE.Receive(n)] else if v.phase.Demoting? then [LE.Receive(n)] else []
  }

  lemma SettleRuns(c: LE.Config, w: LE.World, n: nat)
    requires n < |w.nodes|
    ensures var u := LE.Run(c, w, SettleSteps(n, w.nodes[n])); n < |u.nodes| && u.nodes[n] == Settle(c, w.nodes[n])
  {
    if w.nodes[n].phase.AskRevoke? {
      RunTwo(c, w, LE.Lose(n), LE.Receive(n));
    } else if w.nodes[n].phase.Demoting? {
      RunOne(c, w, LE.Receive(n));
    }
  }

  ghost predicate SomeRunEnds(c: LE.Config, w: LE.World, n: nat, end: LE.Node) {
    exists steps :: EndsAs(LE.Run(c, w, steps), n, end)
  }

  predicate EndsAs(w: LE.World, n: nat, end: LE.Node) {
    n < |w.nodes| && w.nodes[n] == end
  }

  /**
   A pass is a run. Whatever feasible answers one pass of a node at its loop head receives, the node ends
   where some run of the election protocol takes it, from any state of servers and other nodes.
   */
  lemma PassIsRun(c: LE.Config, w: LE.World, n: nat, a: Answers)
    requires LE.ServerOk(w) && n < |w.nodes| && w.nodes[n].phase == LE.Idle && Feasible(c, w, n, a)
    ensures SomeRunEnds(c, w, n, Pass(c, w.nodes[n], a))
  {
    var v := w.nodes[n];
    var b := LE.Begin(c, v);
    var u := LE.Take(c, w, LE.Turn(n));
    assert u.nodes[n] == b && u.next == w.next && u.live == w.live && u.holder == w.holder;
    RunOne(c, w, LE.Turn(n));
    if b.phase.AskGrant? {
      AttemptRuns(c, u, n, a);
      LE.RunSplits(c, w, [LE.Turn(n)], AttemptSteps(u, n, a));
      assert EndsAs(LE.Run(c, w, [LE.Turn(n)] + AttemptSteps(u, n, a)), n, Pass(c, v, a));
    } else if b.phase.AskRenew? {
      RenewPassRuns(c, w, u, n, b.phase.lease, a);
    } else if b.phase.Demoting? {
      RunTwo(c, w, LE.Turn(n), LE.Receive(n));
      assert EndsAs(LE.Run(c, w, [LE.Turn(n), LE.Receive(n)]), n, Pass(c, v, a));
    } else {
      assert EndsAs(LE.Run(c, w, [LE.Turn(n)]), n, Pass(c, v, a));
    }
  }

  lemma RenewPassRuns(c: LE.Config, w: LE.World, u: LE.World, n: nat, l: Lease, a: Answers)
    requires n < |w.nodes| && w.nodes[n].phase == LE.Idle && Feasible(c, w, n, a)
    requires u == LE.Run(c, w, [LE.Turn(n)]) && u.live == w.live && n < |u.nodes|
    requires u.nodes[n] == LE.Begin(c, w.nodes[n]) && u.nodes[n].phase == LE.AskRenew(l)
    ensures SomeRunEnds(c, w, n, Pass(c, w.nodes[n], a))
  {
    RenewRuns(c, u, n, l, a);
    var x := LE.Run(c, u, RenewSteps(n, l, a));
    SettleRuns(c, x, n);
    var steps := RenewSteps(n, l, a) + SettleSteps(n, x.nodes[n]);
    LE.RunSplits(c, u, RenewSteps(n, l, a), SettleSteps(n, x.nodes[n]));
    LE.RunSplits(c, w, [LE.Turn(n)], steps);
    assert EndsAs(LE.Run(c, w, [LE.Turn(n)] + steps), n, Pass(c, w.nodes[n], a));
  }
}
