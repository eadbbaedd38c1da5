/**
 Choosing one master among several pods with a lease-backed lock. The server keeps leases and one lock
 key attached to a lease. Every remote call is three steps: the request leaves, the server may serve it,
 and the reply arrives or the call fails; between any two of them leases expire, other nodes move,
 processes crash, and a request whose call already failed may still be served.
 */
module LeaderElection {
  import opened Prelude
  import opened KeyRange
  import opened Persistence

  type Lease = nat

  datatype StandbyRole = Master | Standby

  /** The configured lock key and the namespace it is placed in. */
  datatype Config = Config(site: Site, key: Key) {
    function Lock(): Key { site.Full(key) }

    /** The key under which a failed renewal releases: namespaced a second time. */
    function Again(): Key { site.Full(Lock()) }

    predicate Stable() { Again() == Lock() }
  }

  /** Where a node is between two passes through the head of its loop. */
  datatype Phase =
    | Idle
    | AskGrant | GotGrant(lease: Lease)
    | AskTxn(lease: Lease) | GotTxn(lease: Lease, won: bool)
    | AskUndo(lease: Lease) | GotUndo
    | Recorded
    | AskRenew(lease: Lease) | GotRenew(alive: bool)
    | AskRevoke(key: Key, stopping: bool) | GotRevoke(key: Key, stopping: bool)
    | Demoting(stopping: bool)
    | Stopped

  datatype Node = Node(role: StandbyRole, leases: map<Key, Lease>, phase: Phase)

  /** `owner` remembers the node each lease was granted to; no step reads it. */
  datatype World = World(
    nodes: seq<Node>,
    next: Lease,
    live: set<Lease>,
    holder: Option<Lease>,
    owner: map<Lease, nat>,
    late: set<Lease>)

  datatype Step =
    | Turn(n: nat)
    | Serve(n: nat)
    | Receive(n: nat)
    | Lose(n: nat)
    | Stop(n: nat)
    | Crash(n: nat)
    | Expire(lease: Lease)
    | LateTxn(lease: Lease)
    | LateGrant

  // ---------------------------------------------------------------------------------------------
  // What a node does on its own
  // ---------------------------------------------------------------------------------------------

  const FRESH := Node(Standby, map[], Idle)

  /** The body of the loop up to the first remote call. */
  function Begin(c: Config, v: Node): Node {
    if v.phase != Idle then v
    else if v.role == Master then
      if c.Lock() in v.leases then v.(phase := AskRenew(v.leases[c.Lock()])) else v.(phase := Demoting(false))
    else if c.Lock() in v.leases then v
    else v.(phase := AskGrant)
  }

  function Halt(c: Config, v: Node): Node {
    if v.phase != Idle then v
    else if v.role == Master then
      v.(phase := if c.Lock() in v.leases then AskRevoke(c.Lock(), true) else Demoting(true))
    else v.(phase := Stopped)
  }

  /** A renewal that failed for any reason goes on to release the lock. */
  function RenewalFailed(c: Config, v: Node): Node {
    v.(phase := if c.Again() in v.leases then AskRevoke(c.Again(), false) else Demoting(false))
  }

  function StayStandby(v: Node): Node {
    v.(role := Standby, phase := Idle)
  }

  function Forget(v: Node, key: Key, stopping: bool): Node {
    v.(leases := v.leases - {key}, phase := Demoting(stopping))
  }

  /** The reply arrives, or the local code after a call goes on. */
  function Continue(c: Config, v: Node): Node {
    match v.phase
    case GotGrant(l) => v.(phase := AskTxn(l))
    case GotTxn(l, won) =>
      if won then v.(leases := v.leases[c.Lock() := l], phase := Recorded) else v.(phase := AskUndo(l))
    case GotUndo => StayStandby(v)
    case Recorded => v.(role := Master, phase := Idle)
    case GotRenew(alive) => if alive then v.(phase := Idle) else RenewalFailed(c, v)
    case GotRevoke(key, stopping) => Forget(v, key, stopping)
    case Demoting(stopping) => v.(role := Standby, phase := if stopping then Stopped else Idle)
    case _ => v
  }

  /** The outstanding call fails at the node, whether or not the server served it. */
  function Fail(c: Config, v: Node): Node {
    match v.phase
    case AskGrant => StayStandby(v)
    case GotGrant(_) => StayStandby(v)
    case AskTxn(l) => v.(phase := AskUndo(l))
    case GotTxn(l, _) => v.(phase := AskUndo(l))
    case AskUndo(_) => StayStandby(v)
    case GotUndo => StayStandby(v)
    case AskRenew(_) => RenewalFailed(c, v)
    case GotRenew(_) => RenewalFailed(c, v)
    case AskRevoke(key, stopping) => Forget(v, key, stopping)
    case GotRevoke(key, stopping) => Forget(v, key, stopping)
    case _ => v
  }

  // ---------------------------------------------------------------------------------------------
  // The server
  // ---------------------------------------------------------------------------------------------

  function Grant(w: World, n: nat): World {
    w.(next := w.next + 1, live := w.live + {w.next}, owner := w.owner[w.next := n])
  }

  predicate Wins(w: World, l: Lease) {
    w.holder == None && l in w.live
  }

  /** Create the lock key if it is absent; a dead lease makes the whole transaction fail. */
  function Txn(w: World, l: Lease): World {
    if Wins(w, l) then w.(holder := Some(l)) else w
  }

  /** A lease ends, by revocation or expiry, and takes the key attached to it along. */
  function EndLease(w: World, l: Lease): World {
    w.(live := w.live - {l}, holder := if w.holder == Some(l) then None else w.holder)
  }

  function Put(w: World, n: nat, v: Node): World
    requires n < |w.nodes|
  {
    w.(nodes := w.nodes[n := v])
  }

  function ServeOne(w: World, n: nat): World
    requires n < |w.nodes|
  {
    var v := w.nodes[n];
    match v.phase
    case AskGrant => Put(Grant(w, n), n, v.(phase := GotGrant(w.next)))
    case AskTxn(l) => Put(Txn(w, l), n, v.(phase := GotTxn(l, Wins(w, l))))
    case AskUndo(l) => Put(EndLease(w, l), n, v.(phase := GotUndo))
    case AskRenew(l) => Put(w, n, v.(phase := GotRenew(l in w.live)))
    case AskRevoke(key, stopping) =>
      if key in v.leases then Put(EndLease(w, v.leases[key]), n, v.(phase := GotRevoke(key, stopping))) else w
    case _ => w
  }

  function Pending(v: Node): set<Lease> {
    if v.phase.AskTxn? then {v.phase.lease} else {}
  }

  function Take(c: Config, w: World, s: Step): World {
    match s
    case Turn(n) => if n < |w.nodes| then Put(w, n, Begin(c, w.nodes[n])) else w
    case Serve(n) => if n < |w.nodes| then ServeOne(w, n) else w
    case Receive(n) => if n < |w.nodes| then Put(w, n, Continue(c, w.nodes[n])) else w
    case Lose(n) =>
      if n < |w.nodes| then Put(w.(late := w.late + Pending(w.nodes[n])), n, Fail(c, w.nodes[n])) else w
    case Stop(n) => if n < |w.nodes| then Put(w, n, Halt(c, w.nodes[n])) else w
    case Crash(n) => if n < |w.nodes| then Put(w.(late := w.late + Pending(w.nodes[n])), n, FRESH) else w
    case Expire(l) => EndLease(w, l)
    case LateTxn(l) => if l in w.late then Txn(w, l) else w
    case LateGrant => w.(next := w.next + 1, live := w.live + {w.next})
  }

  function Run(c: Config, w: World, steps: seq<Step>): World
    decreases |steps|
  {
    if steps == [] then w else Run(c, Take(c, w, steps[0]), steps[1..])
  }

  /** Any number of nodes, nobody holding anything. */
  function Start(count: nat): World {
    World(seq(count, _ => FRESH), 1, {}, None, map[], {})
  }

  // ---------------------------------------------------------------------------------------------
  // Safety
  // ---------------------------------------------------------------------------------------------

  /** The lease is the node's own, and while it lives it holds the lock. */
  ghost predicate Holds(w: World, n: nat, l: Lease) {
    && Mine(w, n, l)
    && (l in w.live ==> w.holder == Some(l))
  }

  ghost predicate Mine(w: World, n: nat, l: Lease) {
    l < w.next && l in w.owner && w.owner[l] == n
  }

  ghost predicate NodeOk(c: Config, w: World, n: nat, v: Node) {
    && v.leases.Keys <= {c.Lock()}
    && (c.Lock() in v.leases ==> Holds(w, n, v.leases[c.Lock()]))
    && match v.phase
       case Idle =>
         && (v.role == Master ==> c.Lock() in v.leases)
         && (c.Stable() && v.role == Standby ==> v.leases == map[])
       case AskGrant => v.role == Standby && v.leases == map[]
       case GotGrant(l) => v.role == Standby && v.leases == map[] && Mine(w, n, l)
       case AskTxn(l) => v.role == Standby && v.leases == map[] && Mine(w, n, l)
       case GotTxn(l, won) => v.role == Standby && v.leases == map[] && Mine(w, n, l) && (won ==> Holds(w, n, l))
       case AskUndo(l) => v.role == Standby && v.leases == map[] && Mine(w, n, l)
       case GotUndo => v.role == Standby && v.leases == map[]
       case Recorded => v.role == Standby && c.Lock() in v.leases
       case AskRenew(l) => v.role == Master && c.Lock() in v.leases && v.leases[c.Lock()] == l
       case GotRenew(_) => v.role == Master && c.Lock() in v.leases
       case AskRevoke(key, stopping) => v.role == Master && key == c.Lock() && key in v.leases && (stopping || c.Stable())
       case GotRevoke(key, stopping) => v.role == Master && key == c.Lock() && key in v.leases && (stopping || c.Stable())
       case Demoting(stopping) => v.role == Master && (stopping || c.Stable() ==> v.leases == map[])
       case Stopped => v.role == Standby
  }

  ghost predicate ServerOk(w: World) {
    && (forall l :: l in w.live ==> l < w.next)
    && (w.holder.Some? ==> w.holder.value in w.live)
  }

  ghost predicate Inv(c: Config, w: World) {
    && ServerOk(w)
    && forall n :: 0 <= n < |w.nodes| ==> NodeOk(c, w, n, w.nodes[n])
  }

  /** Leases keep their owners, none comes back to life, and a living holder keeps the lock. */
  ghost predicate Later(w: World, v: World) {
    && w.next <= v.next
    && (forall l :: l in w.owner && l < w.next ==> l in v.owner && v.owner[l] == w.owner[l])
    && (forall l :: l < w.next && l in v.live ==> l in w.live && (w.holder == Some(l) ==> v.holder == Some(l)))
  }

  lemma LaterKeepsNode(c: Config, w: World, v: World, n: nat, node: Node)
    requires NodeOk(c, w, n, node) && Later(w, v)
    ensures NodeOk(c, v, n, node)
  {
  }

  /** The server's part of any step. */
  lemma StepIsLater(c: Config, w: World, s: Step)
    requires ServerOk(w)
    ensures Later(w, Take(c, w, s)) && ServerOk(Take(c, w, s))
  {
  }

  lemma BeginOk(c: Config, w: World, n: nat, v: Node)
    requires NodeOk(c, w, n, v)
    ensures NodeOk(c, w, n, Begin(c, v)) && NodeOk(c, w, n, Halt(c, v)) && NodeOk(c, w, n, FRESH)
  {
  }

  lemma RenewalFailedOk(c: Config, w: World, n: nat, v: Node)
    requires NodeOk(c, w, n, v) && (v.phase.AskRenew? || v.phase.GotRenew?)
    ensures NodeOk(c, w, n, RenewalFailed(c, v))
  {
  }

  lemma ForgetOk(c: Config, w: World, n: nat, v: Node)
    requires NodeOk(c, w, n, v) && (v.phase.AskRevoke? || v.phase.GotRevoke?)
    ensures NodeOk(c, w, n, Forget(v, v.phase.key, v.phase.stopping))
  {
  }

  lemma ContinueOk(c: Config, w: World, n: nat, v: Node)
    requires NodeOk(c, w, n, v)
    ensures NodeOk(c, w, n, Continue(c, v))
  {
    if v.phase.GotRenew? { RenewalFailedOk(c, w, n, v); }
    else if v.phase.GotRevoke? { ForgetOk(c, w, n, v); }
  }

  lemma FailOk(c: Config, w: World, n: nat, v: Node)
    requires NodeOk(c, w, n, v)
    ensures NodeOk(c, w, n, Fail(c, v))
  {
    if v.phase.AskRenew? || v.phase.GotRenew? { RenewalFailedOk(c, w, n, v); }
    else if v.phase.AskRevoke? || v.phase.GotRevoke? { ForgetOk(c, w, n, v); }
  }

  lemma ServeTxnOk(c: Config, w: World, n: nat)
    requires Inv(c, w) && n < |w.nodes| && w.nodes[n].phase.AskTxn?
    ensures NodeOk(c, ServeOne(w, n), n, ServeOne(w, n).nodes[n])
  {
    assert NodeOk(c, w, n, w.nodes[n]);
  }

  lemma ServeGrantOk(c: Config, w: World, n: nat)
    requires Inv(c, w) && n < |w.nodes| && w.nodes[n].phase.AskGrant?
    ensures NodeOk(c, ServeOne(w, n), n, ServeOne(w, n).nodes[n])
  {
    assert NodeOk(c, w, n, w.nodes[n]);
  }

  /** Any other answer leaves role and leases of the node alone and moves it to the phase that got the answer. */
  lemma ServedStays(w: World, n: nat)
    requires n < |w.nodes|
    ensures var v := w.nodes[n];
            v.phase.AskTxn? || v.phase.AskGrant? ||
            ServeOne(w, n).nodes[n] == v.(phase := match v.phase
              case AskUndo(_) => GotUndo
              case AskRenew(l) => GotRenew(l in w.live)
              case AskRevoke(key, stopping) => if key in v.leases then GotRevoke(key, stopping) else v.phase
              case _ => v.phase)
  {
  }

  lemma ServeOk(c: Config, w: World, n: nat)
    requires Inv(c, w) && n < |w.nodes|
    ensures NodeOk(c, ServeOne(w, n), n, ServeOne(w, n).nodes[n])
  {
    var v := w.nodes[n];
    match v.phase
    case AskTxn(_) => ServeTxnOk(c, w, n);
    case AskGrant => ServeGrantOk(c, w, n);
    case _ =>
      StepIsLater(c, w, Serve(n));
      LaterKeepsNode(c, w, ServeOne(w, n), n, v);
      ServedStays(w, n);
  }

  lemma StepKeepsInv(c: Config, w: World, s: Step)
    requires Inv(c, w)
    ensures Inv(c, Take(c, w, s))
  {
    var after := Take(c, w, s);
    StepIsLater(c, w, s);
    forall n | 0 <= n < |w.nodes| ensures NodeOk(c, after, n, after.nodes[n]) {
      StepKeepsNode(c, w, s, n);
    }
  }

  lemma StepKeepsNode(c: Config, w: World, s: Step, n: nat)
    requires Inv(c, w) && n < |w.nodes|
    ensures NodeOk(c, Take(c, w, s), n, Take(c, w, s).nodes[n])
  {
    var v := w.nodes[n];
    assert NodeOk(c, w, n, v);
    if s == Serve(n) {
      ServeOk(c, w, n);
    } else {
      BeginOk(c, w, n, v);
      ContinueOk(c, w, n, v);
      FailOk(c, w, n, v);
      NodeAfter(c, w, s, n);
      StepIsLater(c, w, s);
      LaterKeepsNode(c, w, Take(c, w, s), n, Take(c, w, s).nodes[n]);
    }
  }

  /** Apart from being served, a node moves by one of its own functions, or not at all. */
  lemma NodeAfter(c: Config, w: World, s: Step, n: nat)
    requires n < |w.nodes| && s != Serve(n)
    ensures var v := w.nodes[n];
            Take(c, w, s).nodes[n] in {v, Begin(c, v), Halt(c, v), FRESH, Continue(c, v), Fail(c, v)}
  {
  }

  lemma {:induction false} RunKeepsInv(c: Config, w: World, steps: seq<Step>)
    requires Inv(c, w)
    ensures Inv(c, Run(c, w, steps))
    decreases |steps|
  {
    if steps != [] {
      StepKeepsInv(c, w, steps[0]);
      RunKeepsInv(c, Take(c, w, steps[0]), steps[1..]);
    }
  }

  /** The node believes it is master, and the lease it recorded for the lock has not ended. */
  predicate Leads(c: Config, w: World, n: nat) {
    && n < |w.nodes|
    && w.nodes[n].role == Master
    && c.Lock() in w.nodes[n].leases
    && w.nodes[n].leases[c.Lock()] in w.live
  }

  /**
   Over every run with any number of nodes: at most one node is master under a lease that still lives,
   and that lease is the one attached to the lock key.
   */
  lemma AtMostOneLeader(c: Config, count: nat, steps: seq<Step>, m: nat, n: nat)
    ensures var w := Run(c, Start(count), steps);
            Leads(c, w, m) ==> w.holder == Some(w.nodes[m].leases[c.Lock()]) && (Leads(c, w, n) ==> m == n)
  {
    RunKeepsInv(c, Start(count), steps);
  }

  // ---------------------------------------------------------------------------------------------
  // The loop head
  // ---------------------------------------------------------------------------------------------

  ghost predicate RoleTellsLease(c: Config, w: World) {
    forall n :: 0 <= n < |w.nodes| && w.nodes[n].phase == Idle ==> (w.nodes[n].role == Master <==> c.Lock() in w.nodes[n].leases)
  }

  ghost predicate LoopHeadExact(c: Config) {
    forall w: World :: Reachable(c, w) ==> RoleTellsLease(c, w)
  }

  ghost predicate Reachable(c: Config, w: World) {
    exists count: nat, steps: seq<Step> :: Run(c, Start(count), steps) == w
  }

  lemma {:induction false} RunThen(c: Config, w: World, steps: seq<Step>, s: Step)
    ensures Run(c, w, steps + [s]) == Take(c, Run(c, w, steps), s)
    decreases |steps|
  {
    if steps != [] {
      assert (steps + [s])[1..] == steps[1..] + [s];
      RunThen(c, Take(c, w, steps[0]), steps[1..], s);
    } else {
      assert [s][1..] == [];
      assert Run(c, Take(c, w, s), []) == Take(c, w, s);
    }
  }

  lemma Extend(c: Config, w: World, s: Step)
    requires Reachable(c, w)
    ensures Reachable(c, Take(c, w, s))
  {
    var count: nat, steps: seq<Step> :| Run(c, Start(count), steps) == w;
    RunThen(c, Start(count), steps, s);
  }

  /** A first pass through the loop with nothing in the way makes the only node master. */
  lemma LoneNodeWins(c: Config) returns (w: World)
    ensures Reachable(c, w) && w.nodes == [Node(Master, map[c.Lock() := 1], Idle)]
  {
    var a := Start(1);
    assert Run(c, a, []) == a;
    var first := [Turn(0), Serve(0), Receive(0)];
    var rest := [Serve(0), Receive(0), Serve(0)] + [Receive(0)];
    FirstHalf(c, a, 0);
    ReachableBy(c, a, first);
    SecondHalf(c, Run(c, a, first), 0, 1);
    ReachableBy(c, Run(c, a, first), rest);
    w := Run(c, Run(c, a, first), rest);
  }

  /** With an unstable key a lost renewal leaves a standby that still records the lease. */
  lemma UnstableKeySticks(c: Config) returns (w: World)
    requires !c.Stable()
    ensures Reachable(c, w) && !RoleTellsLease(c, w)
  {
    var w0 := LoneNodeWins(c);
    var w1 := Take(c, w0, Turn(0));
    Extend(c, w0, Turn(0));
    assert w1.nodes == [Node(Master, map[c.Lock() := 1], AskRenew(1))];
    var w2 := Take(c, w1, Lose(0));
    Extend(c, w1, Lose(0));
    assert w2.nodes == [Node(Master, map[c.Lock() := 1], Demoting(false))];
    w := Take(c, w2, Receive(0));
    Extend(c, w2, Receive(0));
    assert w.nodes == [Node(Standby, map[c.Lock() := 1], Idle)];
    assert w.nodes[0].phase == Idle;
  }

  /**
   At every loop head of every run a node is master exactly when it records a lease for the lock, if
   and only if the configured key starts with "/" or already carries the namespace.
   */
  lemma LoopHead(c: Config)
    ensures LoopHeadExact(c) <==> SLASH <= c.key || c.site.space + SLASH + c.site.job + SLASH <= c.key
  {
    NamespacingIdempotent(c.site.space, c.site.job, c.key);
    assert c.Stable() <==> SLASH <= c.key || c.site.space + SLASH + c.site.job + SLASH <= c.key;
    if c.Stable() {
      forall w: World | Reachable(c, w) ensures RoleTellsLease(c, w) {
        var count: nat, steps: seq<Step> :| Run(c, Start(count), steps) == w;
        RunKeepsInv(c, Start(count), steps);
        forall n | 0 <= n < |w.nodes| && w.nodes[n].phase == Idle
          ensures w.nodes[n].role == Master <==> c.Lock() in w.nodes[n].leases
        {
          assert NodeOk(c, w, n, w.nodes[n]);
        }
      }
    } else {
      var w := UnstableKeySticks(c);
    }
  }

  /** A standby at the loop head that still records a lease: it asks the server for nothing. */
  predicate Stuck(c: Config, v: Node) {
    v.role == Standby && c.Lock() in v.leases && v.phase in {Idle, Stopped}
  }

  /** Such a node is not master again in any run in which its process does not restart. */
  lemma {:induction false} StuckForever(c: Config, w: World, n: nat, steps: seq<Step>)
    requires n < |w.nodes| && Stuck(c, w.nodes[n])
    requires Crash(n) !in steps
    ensures var v := Run(c, w, steps);
            n < |v.nodes| && Stuck(c, v.nodes[n]) && v.nodes[n].leases == w.nodes[n].leases
    decreases |steps|
  {
    if steps != [] {
      assert steps[0] in steps;
      StuckStays(c, w, n, steps[0]);
      StuckForever(c, Take(c, w, steps[0]), n, steps[1..]);
    }
  }

  lemma StuckStays(c: Config, w: World, n: nat, s: Step)
    requires n < |w.nodes| && Stuck(c, w.nodes[n]) && s != Crash(n)
    ensures var v := Take(c, w, s);
            n < |v.nodes| && Stuck(c, v.nodes[n]) && v.nodes[n].leases == w.nodes[n].leases
  {
  }

  // ---------------------------------------------------------------------------------------------
  // A master whose lease has ended
  // ---------------------------------------------------------------------------------------------

  predicate Stale(c: Config, w: World, n: nat) {
    && n < |w.nodes|
    && w.nodes[n].role == Master
    && (c.Lock() in w.nodes[n].leases ==> w.nodes[n].leases[c.Lock()] !in w.live)
  }

  /** How many moves a stale master can be away from standby. */
  function Distance(p: Phase): nat {
    match p
    case GotRenew(true) => 7
    case Idle => 6
    case AskRenew(_) => 5
    case GotRenew(false) => 4
    case AskRevoke(_, _) => 3
    case GotRevoke(_, _) => 2
    case Demoting(_) => 1
    case _ => 0
  }

  /** A stale master's own moves bring it closer to standby. */
  lemma StaleAdvances(c: Config, w: World, n: nat, v: Node)
    requires NodeOk(c, w, n, v) && v.role == Master && (c.Lock() in v.leases ==> v.leases[c.Lock()] !in w.live)
    ensures forall u | u in {Begin(c, v), Halt(c, v), Continue(c, v), Fail(c, v)} ::
              u == v || u.role == Standby || (Distance(u.phase) < Distance(v.phase) && u.leases.Keys <= v.leases.Keys &&
                                              (c.Lock() in u.leases ==> u.leases[c.Lock()] == v.leases[c.Lock()]))
  {
  }

  lemma StaleServed(c: Config, w: World, n: nat)
    requires Inv(c, w) && Stale(c, w, n)
    ensures var v := ServeOne(w, n).nodes[n];
            v.role == Master && v.leases == w.nodes[n].leases &&
            (v == w.nodes[n] || Distance(v.phase) < Distance(w.nodes[n].phase))
  {
    assert NodeOk(c, w, n, w.nodes[n]);
  }

  lemma StaleMove(c: Config, w: World, s: Step, n: nat)
    requires Inv(c, w) && Stale(c, w, n)
    ensures var v := Take(c, w, s);
            && n < |v.nodes|
            && (v.nodes[n].role == Standby || Stale(c, v, n))
            && (v.nodes[n] == w.nodes[n] || v.nodes[n].role == Standby ||
                Distance(v.nodes[n].phase) < Distance(w.nodes[n].phase))
  {
    var v := w.nodes[n];
    assert NodeOk(c, w, n, v);
    StepIsLater(c, w, s);
    StaleAdvances(c, w, n, v);
    if s == Serve(n) {
      StaleServed(c, w, n);
    } else {
      NodeAfter(c, w, s, n);
    }
  }

  /** The moves of one node in a run. */
  function Moves(c: Config, w: World, n: nat, steps: seq<Step>): nat
    requires n < |w.nodes|
    decreases |steps|
  {
    if steps == [] then 0
    else
      var v := Take(c, w, steps[0]);
      (if v.nodes[n] == w.nodes[n] then 0 else 1) + Moves(c, v, n, steps[1..])
  }

  /** The node is master in every state of the run. */
  predicate StaysMaster(c: Config, w: World, n: nat, steps: seq<Step>)
    requires n < |w.nodes|
    decreases |steps|
  {
    w.nodes[n].role == Master && (steps == [] || StaysMaster(c, Take(c, w, steps[0]), n, steps[1..]))
  }

  /**
   Once its lease has ended a master never leads again without stepping down first, and it makes at most
   six further moves as master: the rest of a renewal already answered, and one failed renewal.
   */
  lemma {:induction false} StaleMasterStepsDown(c: Config, w: World, n: nat, steps: seq<Step>)
    requires Inv(c, w) && Stale(c, w, n) && StaysMaster(c, w, n, steps)
    ensures Stale(c, Run(c, w, steps), n) && !Leads(c, Run(c, w, steps), n)
    ensures Moves(c, w, n, steps) + Distance(Run(c, w, steps).nodes[n].phase) <= Distance(w.nodes[n].phase)
    ensures Moves(c, w, n, steps) <= 6
    decreases |steps|
  {
    assert NodeOk(c, w, n, w.nodes[n]);
    if steps != [] {
      StaleMove(c, w, steps[0], n);
      StepKeepsInv(c, w, steps[0]);
      StaleMasterStepsDown(c, Take(c, w, steps[0]), n, steps[1..]);
    }
    RunKeepsInv(c, w, steps);
    assert NodeOk(c, Run(c, w, steps), n, Run(c, w, steps).nodes[n]);
  }

  /** Roles alone do not exclude each other: two masters exist once the first one's lease has expired. */
  ghost predicate TwoMasters(c: Config, w: World) {
    Reachable(c, w) && |w.nodes| == 2 && w.nodes[0].role == Master && w.nodes[1].role == Master
  }

  // ---------------------------------------------------------------------------------------------
  // Progress
  // ---------------------------------------------------------------------------------------------

  /** One pass of one standby in which every call is served and answered. */
  function Attempt(n: nat): seq<Step> {
    [Turn(n), Serve(n), Receive(n), Serve(n), Receive(n), Serve(n), Receive(n)]
  }

  lemma FirstHalf(c: Config, w: World, n: nat)
    requires ServerOk(w) && n < |w.nodes| && w.nodes[n] == FRESH
    ensures Run(c, w, [Turn(n), Serve(n), Receive(n)]) == Put(Grant(w, n), n, FRESH.(phase := AskTxn(w.next)))
  {
    var w1 := Take(c, w, Turn(n));
    assert w1 == Put(w, n, FRESH.(phase := AskGrant));
    var w2 := Take(c, w1, Serve(n));
    assert w2 == Put(Grant(w, n), n, FRESH.(phase := GotGrant(w.next)));
    var w3 := Take(c, w2, Receive(n));
    RunOf3(c, w, Turn(n), Serve(n), Receive(n));
  }

  lemma RunOf3(c: Config, w: World, a: Step, b: Step, d: Step)
    ensures Run(c, w, [a, b, d]) == Take(c, Take(c, Take(c, w, a), b), d)
  {
    assert [a, b, d][1..] == [b, d] && [b, d][1..] == [d] && [d][1..] == [];
    assert Run(c, w, [a, b, d]) == Run(c, Take(c, w, a), [b, d]);
    assert Run(c, Take(c, w, a), [b, d]) == Run(c, Take(c, Take(c, w, a), b), [d]);
    assert Run(c, Take(c, Take(c, w, a), b), [d]) == Run(c, Take(c, Take(c, Take(c, w, a), b), d), []);
  }

  lemma {:induction false} RunSplits(c: Config, w: World, a: seq<Step>, b: seq<Step>)
    ensures Run(c, w, a + b) == Run(c, Run(c, w, a), b)
    decreases |a|
  {
    if a == [] {
      assert a + b == b;
    } else {
      assert (a + b)[1..] == a[1..] + b;
      RunSplits(c, Take(c, w, a[0]), a[1..], b);
    }
  }

  lemma SecondHalf(c: Config, w: World, n: nat, l: Lease)
    requires n < |w.nodes| && w.nodes[n] == FRESH.(phase := AskTxn(l)) && l in w.live
    ensures Run(c, w, [Serve(n), Receive(n), Serve(n)] + [Receive(n)]) ==
            if w.holder == None then Put(w.(holder := Some(l)), n, Node(Master, map[c.Lock() := l], Idle))
            else Put(EndLease(w, l), n, FRESH)
  {
    RunSplits(c, w, [Serve(n), Receive(n), Serve(n)], [Receive(n)]);
    RunOf3(c, w, Serve(n), Receive(n), Serve(n));
    var w1 := Take(c, w, Serve(n));
    assert w1 == Put(Txn(w, l), n, FRESH.(phase := GotTxn(l, Wins(w, l))));
    var w3 := Run(c, w, [Serve(n), Receive(n), Serve(n)]);
    if w.holder == None {
      assert w3 == Put(w.(holder := Some(l)), n, Node(Standby, map[c.Lock() := l], Recorded));
    } else {
      assert w3 == Put(EndLease(w, l), n, FRESH.(phase := GotUndo));
    }
    assert [Receive(n)][1..] == [];
    assert Run(c, w3, [Receive(n)]) == Run(c, Take(c, w3, Receive(n)), []);
  }

  /**
   An undisturbed attempt of a fresh standby wins exactly when the lock is free, then leads under a new
   lease; when it loses, the lease it was granted is gone and the lock is as it was.
   */
  lemma AttemptWinsIff(c: Config, w: World, n: nat)
    requires ServerOk(w) && n < |w.nodes| && w.nodes[n] == FRESH
    ensures var v := Run(c, w, Attempt(n));
            && |v.nodes| == |w.nodes|
            && (v.nodes[n].role == Master <==> w.holder == None)
            && (w.holder == None ==> Leads(c, v, n) && v.holder == Some(w.next))
            && (w.holder != None ==> v.nodes == w.nodes && v.live == w.live && v.holder == w.holder)
  {
    var first := [Turn(n), Serve(n), Receive(n)];
    var rest := [Serve(n), Receive(n), Serve(n)] + [Receive(n)];
    assert Attempt(n) == first + rest;
    RunSplits(c, w, first, rest);
    FirstHalf(c, w, n);
    SecondHalf(c, Run(c, w, first), n, w.next);
    if w.holder != None {
      var v := Run(c, w, Attempt(n));
      assert v.nodes == w.nodes;
      assert v.live == w.live;
    }
  }

  /** A node moves only in its own steps. */
  lemma {:induction false} OthersStay(c: Config, w: World, n: nat, steps: seq<Step>)
    requires n < |w.nodes|
    requires forall i :: 0 <= i < |steps| ==> steps[i] !in {Turn(n), Serve(n), Receive(n), Lose(n), Stop(n), Crash(n)}
    ensures |Run(c, w, steps).nodes| == |w.nodes| && Run(c, w, steps).nodes[n] == w.nodes[n]
    decreases |steps|
  {
    if steps != [] {
      assert steps[0] !in {Turn(n), Serve(n), Receive(n), Lose(n), Stop(n), Crash(n)};
      OthersStay(c, Take(c, w, steps[0]), n, steps[1..]);
    }
  }

  lemma ReachableBy(c: Config, w: World, steps: seq<Step>)
    requires Reachable(c, w)
    ensures Reachable(c, Run(c, w, steps))
  {
    var count: nat, before: seq<Step> :| Run(c, Start(count), before) == w;
    RunSplits(c, Start(count), before, steps);
  }

  /** The second node wins after the first one's lease expires, and the first is still master. */
  lemma TwoMastersReachable(c: Config) returns (w: World)
    ensures TwoMasters(c, w)
  {
    var a := Start(2);
    assert Run(c, a, []) == a;
    AttemptWinsIff(c, a, 0);
    OthersStay(c, a, 1, Attempt(0));
    var b := Run(c, a, Attempt(0));
    RunKeepsInv(c, a, Attempt(0));
    assert Reachable(c, b);
    w := SecondWins(c, b);
  }

  lemma SecondWins(c: Config, b: World) returns (w: World)
    requires Reachable(c, b) && ServerOk(b) && b.holder.Some?
    requires |b.nodes| == 2 && b.nodes[0].role == Master && b.nodes[1] == FRESH
    ensures TwoMasters(c, w)
  {
    var l := b.holder.value;
    var d := Take(c, b, Expire(l));
    Extend(c, b, Expire(l));
    StepIsLater(c, b, Expire(l));
    AttemptWinsIff(c, d, 1);
    OthersStay(c, d, 0, Attempt(1));
    w := Run(c, d, Attempt(1));
    ReachableBy(c, d, Attempt(1));
  }
  // ---------------------------------------------------------------------------------------------
  // One master by role
  // ---------------------------------------------------------------------------------------------

  predicate IsMaster(w: World, n: nat) {
    n < |w.nodes| && w.nodes[n].role == Master
  }

  predicate OneMaster(w: World) {
    forall m, n | 0 <= m < n < |w.nodes| :: !(IsMaster(w, m) && IsMaster(w, n))
  }

  /** A node that has recorded its lease takes the role while another node has it. */
  predicate Usurps(w: World, s: Step) {
    && s.Receive? && s.n < |w.nodes| && w.nodes[s.n].phase == Recorded
    && exists m :: 0 <= m < |w.nodes| && m != s.n && IsMaster(w, m)
  }

  /** A node becomes master only where it has recorded its lease, and there it does. */
  lemma BecomesMaster(c: Config, w: World, s: Step, n: nat)
    requires Inv(c, w) && n < |w.nodes|
    ensures |Take(c, w, s).nodes| == |w.nodes|
    ensures w.nodes[n].role == Standby ==> (IsMaster(Take(c, w, s), n) <==> s == Receive(n) && w.nodes[n].phase == Recorded)
  {
    assert NodeOk(c, w, n, w.nodes[n]);
    if s != Serve(n) { NodeAfter(c, w, s, n); }
  }

  lemma OthersKeepRole(c: Config, w: World, s: Step, n: nat)
    requires s.Receive? && n < |w.nodes| && n != s.n
    ensures |Take(c, w, s).nodes| == |w.nodes| && Take(c, w, s).nodes[n] == w.nodes[n]
  {
  }

  /** A step leaves one master at most if and only if it does not usurp. */
  lemma OneMasterStep(c: Config, w: World, s: Step)
    requires Inv(c, w) && OneMaster(w)
    ensures OneMaster(Take(c, w, s)) <==> !Usurps(w, s)
  {
    var v := Take(c, w, s);
    if Usurps(w, s) {
      var m :| 0 <= m < |w.nodes| && m != s.n && IsMaster(w, m);
      assert NodeOk(c, w, s.n, w.nodes[s.n]);
      BecomesMaster(c, w, s, s.n);
      OthersKeepRole(c, w, s, m);
      assert IsMaster(v, m) && IsMaster(v, s.n);
    } else {
      forall m, n | 0 <= m < n < |v.nodes| ensures !(IsMaster(v, m) && IsMaster(v, n)) {
        MastersStepDown(c, w, s, m, n);
      }
    }
  }

  lemma MastersStepDown(c: Config, w: World, s: Step, m: nat, n: nat)
    requires Inv(c, w) && OneMaster(w) && !Usurps(w, s) && m < n < |Take(c, w, s).nodes|
    ensures !(IsMaster(Take(c, w, s), m) && IsMaster(Take(c, w, s), n))
  {
    assert |Take(c, w, s).nodes| == |w.nodes|;
    BecomesMaster(c, w, s, m);
    BecomesMaster(c, w, s, n);
    assert !(IsMaster(w, m) && IsMaster(w, n));
    if IsMaster(w, n) {
      assert w.nodes[m].role == Standby;
    } else {
      assert w.nodes[n].role == Standby;
    }
  }

  ghost predicate AlwaysOneMaster(c: Config, w: World, steps: seq<Step>)
    decreases |steps|
  {
    OneMaster(w) && (steps == [] || AlwaysOneMaster(c, Take(c, w, steps[0]), steps[1..]))
  }

  ghost predicate NeverUsurps(c: Config, w: World, steps: seq<Step>)
    decreases |steps|
  {
    steps == [] || (!Usurps(w, steps[0]) && NeverUsurps(c, Take(c, w, steps[0]), steps[1..]))
  }

  lemma {:induction false} OneMasterFrom(c: Config, w: World, steps: seq<Step>)
    requires Inv(c, w) && OneMaster(w)
    ensures AlwaysOneMaster(c, w, steps) <==> NeverUsurps(c, w, steps)
    decreases |steps|
  {
    if steps != [] {
      OneMasterStep(c, w, steps[0]);
      StepKeepsInv(c, w, steps[0]);
      if OneMaster(Take(c, w, steps[0])) { OneMasterFrom(c, Take(c, w, steps[0]), steps[1..]); }
    }
  }

  /**
   Over every run with any number of nodes: at most one node has the role of master in every state, if and
   only if no node that has recorded its lease takes the role while another has it.
   */
  lemma OneMasterIff(c: Config, count: nat, steps: seq<Step>)
    ensures AlwaysOneMaster(c, Start(count), steps) <==> NeverUsurps(c, Start(count), steps)
  {
    OneMasterFrom(c, Start(count), steps);
  }

  /** Of any two masters in any run, at least one holds a lease that has ended. */
  lemma OneOfTwoIsStale(c: Config, count: nat, steps: seq<Step>, m: nat, n: nat)
    requires m != n && IsMaster(Run(c, Start(count), steps), m) && IsMaster(Run(c, Start(count), steps), n)
    ensures Stale(c, Run(c, Start(count), steps), m) || Stale(c, Run(c, Start(count), steps), n)
  {
    AtMostOneLeader(c, count, steps, m, n);
  }

  /** A node usurps only if the other's lease has ended, or its own has ended before it took the role. */
  lemma UsurperOrMasterIsStale(c: Config, w: World, n: nat, m: nat)
    requires Inv(c, w) && n < |w.nodes| && m != n && w.nodes[n].phase == Recorded && IsMaster(w, m)
    ensures Stale(c, w, m) || Stale(c, Take(c, w, Receive(n)), n)
  {
    assert NodeOk(c, w, n, w.nodes[n]) && NodeOk(c, w, m, w.nodes[m]);
  }
  // ---------------------------------------------------------------------------------------------
  // Giving the lock back
  // ---------------------------------------------------------------------------------------------

  /** The node has stopped as a standby and records no lease for the lock. */
  predicate Left(c: Config, w: World, n: nat) {
    && n < |w.nodes| && w.nodes[n].phase == Stopped && w.nodes[n].role == Standby
    && c.Lock() !in w.nodes[n].leases
  }

  /** The lease does not hold the lock and never will again, since it has ended. */
  predicate Ended(w: World, l: Lease) {
    l !in w.live && w.holder != Some(l)
  }

  lemma StopAsksRevoke(c: Config, w: World, n: nat)
    requires n < |w.nodes| && w.nodes[n].phase == Idle && w.nodes[n].role == Master && c.Lock() in w.nodes[n].leases
    ensures Take(c, w, Stop(n)) == Put(w, n, w.nodes[n].(phase := AskRevoke(c.Lock(), true)))
  {
  }

  lemma RunOf4(c: Config, w: World, a: Step, b: Step, d: Step, e: Step)
    ensures Run(c, w, [a, b, d, e]) == Take(c, Take(c, Take(c, Take(c, w, a), b), d), e)
  {
    assert [a, b, d, e][1..] == [b, d, e];
    assert Run(c, w, [a, b, d, e]) == Run(c, Take(c, w, a), [b, d, e]);
    RunOf3(c, Take(c, w, a), b, d, e);
  }

  /**
   A master that is stopped at a loop head, with its calls served: its lease has ended, the lock is no
   longer held by it and, if it was, is free; the other leases and nodes are as they were.
   */
  lemma StoppingGivesBack(c: Config, w: World, n: nat)
    requires ServerOk(w) && n < |w.nodes|
    requires w.nodes[n].phase == Idle && w.nodes[n].role == Master && c.Lock() in w.nodes[n].leases
    ensures var l := w.nodes[n].leases[c.Lock()];
            var v := Run(c, w, [Stop(n), Serve(n), Receive(n), Receive(n)]);
            && Left(c, v, n) && Ended(v, l)
            && v.holder == (if w.holder == Some(l) then None else w.holder)
            && v.live == w.live - {l} && v.next == w.next
            && |v.nodes| == |w.nodes| && forall m | 0 <= m < |w.nodes| && m != n :: v.nodes[m] == w.nodes[m]
  {
    var l := w.nodes[n].leases[c.Lock()];
    StopAsksRevoke(c, w, n);
    var asked := Take(c, w, Stop(n));
    var served := Take(c, asked, Serve(n));
    assert served == Put(EndLease(w, l), n, w.nodes[n].(phase := GotRevoke(c.Lock(), true)));
    RunOf4(c, w, Stop(n), Serve(n), Receive(n), Receive(n));
  }

  /** When the revocation is lost, it forgets the lease all the same. */
  lemma StoppingForgets(c: Config, w: World, n: nat)
    requires n < |w.nodes| && w.nodes[n].phase == Idle && w.nodes[n].role == Master && c.Lock() in w.nodes[n].leases
    ensures Left(c, Run(c, w, [Stop(n), Lose(n), Receive(n)]), n)
  {
    StopAsksRevoke(c, w, n);
    RunOf3(c, w, Stop(n), Lose(n), Receive(n));
  }

  /** A master whose renewal got no answer also gives the lock back, if the key is stable. */
  lemma FailedRenewalGivesBack(c: Config, w: World, n: nat)
    requires c.Stable() && n < |w.nodes|
    requires w.nodes[n].phase == Idle && w.nodes[n].role == Master && c.Lock() in w.nodes[n].leases
    ensures var l := w.nodes[n].leases[c.Lock()];
            var v := Run(c, w, [Turn(n), Lose(n), Serve(n)] + [Receive(n), Receive(n)]);
            && n < |v.nodes| && v.nodes[n] == Node(Standby, w.nodes[n].leases - {c.Lock()}, Idle)
            && Ended(v, l) && v.live == w.live - {l}
  {
    var l := w.nodes[n].leases[c.Lock()];
    RunSplits(c, w, [Turn(n), Lose(n), Serve(n)], [Receive(n), Receive(n)]);
    RunOf3(c, w, Turn(n), Lose(n), Serve(n));
    var asked := Take(c, Take(c, w, Turn(n)), Lose(n));
    assert asked.nodes[n] == w.nodes[n].(phase := AskRevoke(c.Lock(), false));
    var served := Take(c, asked, Serve(n));
    assert served.nodes[n] == w.nodes[n].(phase := GotRevoke(c.Lock(), false)) && Ended(served, l);
    assert [Receive(n), Receive(n)][1..] == [Receive(n)] && [Receive(n)][1..] == [];
    assert Run(c, served, [Receive(n), Receive(n)]) == Run(c, Take(c, served, Receive(n)), [Receive(n)]);
    var last := Take(c, served, Receive(n));
    assert Run(c, last, [Receive(n)]) == Run(c, Take(c, last, Receive(n)), []);
  }

  /** So the next undisturbed attempt of a fresh node wins, if the lock was held by nobody else. */
  lemma SuccessorWins(c: Config, w: World, n: nat, m: nat)
    requires ServerOk(w) && n < |w.nodes| && m < |w.nodes| && m != n && w.nodes[m] == FRESH
    requires w.nodes[n].phase == Idle && w.nodes[n].role == Master && c.Lock() in w.nodes[n].leases
    requires w.holder == Some(w.nodes[n].leases[c.Lock()])
    ensures Leads(c, Run(c, Run(c, w, [Stop(n), Serve(n), Receive(n), Receive(n)]), Attempt(m)), m)
  {
    StoppingGivesBack(c, w, n);
    AttemptWinsIff(c, Run(c, w, [Stop(n), Serve(n), Receive(n), Receive(n)]), m);
  }

  /** An attempt whose transaction got no answer gives its lease back too, whether or not it was served. */
  lemma LostTransactionIsUndone(c: Config, w: World, n: nat, served: bool)
    requires ServerOk(w) && n < |w.nodes| && w.nodes[n] == FRESH
    ensures var asked := Run(c, w, [Turn(n), Serve(n), Receive(n)]);
            var v := Run(c, if served then Take(c, asked, Serve(n)) else asked, [Lose(n), Serve(n), Receive(n)]);
            n < |v.nodes| && v.nodes[n] == FRESH && Ended(v, w.next) && v.live == w.live
            && (w.holder != None ==> v.holder == w.holder)
  {
    FirstHalf(c, w, n);
    var asked := Run(c, w, [Turn(n), Serve(n), Receive(n)]);
    var u := if served then Take(c, asked, Serve(n)) else asked;
    assert |u.nodes| == |w.nodes|;
    var lost := Take(c, u, Lose(n));
    assert lost.nodes[n] == FRESH.(phase := AskUndo(w.next));
    var undone := Take(c, lost, Serve(n));
    assert undone.nodes[n] == FRESH.(phase := GotUndo);
    RunOf3(c, u, Lose(n), Serve(n), Receive(n));
  }

  /** An attempt whose grant got no answer is over; a lease granted all the same stays until it expires. */
  lemma LostGrantEndsAttempt(c: Config, w: World, n: nat)
    requires n < |w.nodes| && w.nodes[n] == FRESH
    ensures Run(c, w, [Turn(n), Lose(n)]) == w
    ensures var v := Run(c, w, [Turn(n), Serve(n), Lose(n)]);
            v.nodes == w.nodes && v.live == w.live + {w.next} && v.holder == w.holder
  {
    RunOf3(c, w, Turn(n), Serve(n), Lose(n));
    var asked := Take(c, w, Turn(n));
    assert asked.nodes[n] == FRESH.(phase := AskGrant);
    assert [Turn(n), Lose(n)][1..] == [Lose(n)] && [Lose(n)][1..] == [];
    assert Run(c, asked, [Lose(n)]) == Run(c, Take(c, asked, Lose(n)), []);
    assert w.late + {} == w.late;
    assert w.nodes[n := FRESH] == w.nodes;
  }

  /** A standby that is stopped makes no move any more, unless its process starts anew. */
  lemma StoppedStandbyRests(c: Config, w: World, n: nat, steps: seq<Step>)
    requires n < |w.nodes| && w.nodes[n].phase == Idle && w.nodes[n].role == Standby
    requires forall i :: 0 <= i < |steps| ==> steps[i] != Crash(n)
    ensures var v := Run(c, Take(c, w, Stop(n)), steps);
            n < |v.nodes| && v.nodes[n] == w.nodes[n].(phase := Stopped)
  {
    StoppedRests(c, Take(c, w, Stop(n)), n, steps);
  }

  lemma {:induction false} StoppedRests(c: Config, w: World, n: nat, steps: seq<Step>)
    requires n < |w.nodes| && w.nodes[n].phase == Stopped
    requires forall i :: 0 <= i < |steps| ==> steps[i] != Crash(n)
    ensures n < |Run(c, w, steps).nodes| && Run(c, w, steps).nodes[n] == w.nodes[n]
    decreases |steps|
  {
    if steps != [] {
      StoppedStep(c, w, n, steps[0]);
      StoppedRests(c, Take(c, w, steps[0]), n, steps[1..]);
    }
  }

  lemma StoppedStep(c: Config, w: World, n: nat, s: Step)
    requires n < |w.nodes| && w.nodes[n].phase == Stopped && s != Crash(n)
    ensures n < |Take(c, w, s).nodes| && Take(c, w, s).nodes[n] == w.nodes[n]
  {
  }
}
