/**
 The controller's handlers cut where other threads can come in between. A reaction reads the status, looks
 the transition up and asks whether the instance is forcibly separated; it writes the status later, and
 after a timeout only when the node managers have answered. A separation finds the instance, marks its id
 and looks at the status afterwards.
 */
module HandlerRaces {
  import opened Prelude
  import opened EventPusher
  import opened Lifecycle

  /** A reaction that has passed all checks and not written the status yet. */
  datatype Decision = Decision(id: int, from: Status, event: Condition)

  /** `finding` holds separations that have the instance but no mark yet, `separating` those that have marked it. */
  datatype World = World(reg: Registry, decisions: seq<Decision>, finding: multiset<int>, separating: multiset<int>)

  const IDLE := World(Registry(map[], {}), [], multiset{}, multiset{})

  datatype Move =
    | Add(id: int, job: string, role: Role, pods: Pods, now: real)
    | Beat(id: int, ip: string, now: real, states: map<int, EndpointStatus>)
    | Decide(id: int, timeout: bool)
    | Write(k: nat, abnormal: bool, now: real)
    | Find(id: int)
    | Mark(id: int)
    | Check(id: int)
    | Unmark(id: int)

  function EventAt(r: Registry, id: int, timeout: bool): Condition
    requires id in r.instances
  {
    if timeout then HeartbeatTimeout else Observe(r.instances[id].pods)
  }

  /** The checks pass: there is a transition, and not one to ACTIVE of a forcibly separated instance. */
  predicate Passes(r: Registry, id: int, event: Condition)
    requires id in r.instances
  {
    var to := Transition(r.instances[id].status, event);
    to.Some? && !(id in r.forced && to == Some(Active))
  }

  /** The state handler, which goes by the status that was read before. */
  function Written(r: Registry, d: Decision, abnormal: bool, now: real): Registry {
    var to := Transition(d.from, d.event);
    if d.id !in r.instances || to == None || d.from == to.value then r
    else match to.value
      case Initial => WithStatus(r, d.id, Initial)
      case Active => WithStatus(r, d.id, Active)
      case Inactive =>
        if d.event == InstanceAbnormal || abnormal then WithStatus(r, d.id, Inactive)
        else WithPods(r, d.id, StampAll(r.instances[d.id].pods, now))
      case Deleted => Registry(r.instances - {d.id}, r.forced - {d.id})
  }

  function Take(w: World, m: Move): World {
    match m
    case Add(id, job, role, pods, now) => w.(reg := Effect(w.reg, AddInstance(id, job, role, pods, now)).0)
    case Beat(id, ip, now, states) =>
      if id in w.reg.instances then w.(reg := WithPods(w.reg, id, BeatPods(w.reg.instances[id].pods, ip, now, states).0))
      else w
    case Decide(id, timeout) =>
      if id in w.reg.instances && Passes(w.reg, id, EventAt(w.reg, id, timeout)) then
        w.(decisions := w.decisions + [Decision(id, w.reg.instances[id].status, EventAt(w.reg, id, timeout))])
      else w
    case Write(k, abnormal, now) =>
      if k < |w.decisions| then
        w.(reg := Written(w.reg, w.decisions[k], abnormal, now), decisions := w.decisions[..k] + w.decisions[k + 1..])
      else w
    case Find(id) => if id in w.reg.instances then w.(finding := w.finding + multiset{id}) else w
    case Mark(id) =>
      if w.finding[id] > 0 then
        w.(reg := w.reg.(forced := w.reg.forced + {id}), finding := w.finding - multiset{id}, separating := w.separating + multiset{id})
      else w
    case Check(id) =>
      if w.separating[id] > 0 then
        w.(reg := if IsActive(w.reg, id) then WithStatus(w.reg, id, Inactive) else w.reg, separating := w.separating - multiset{id})
      else w
    case Unmark(id) => w.(reg := Effect(w.reg, Recover(id)).0)
  }

  function Run(w: World, moves: seq<Move>): World
    decreases |moves|
  {
    if moves == [] then w else Run(Take(w, moves[0]), moves[1..])
  }

  // ---------------------------------------------------------------------------------------------
  // Without interruption
  // ---------------------------------------------------------------------------------------------

  /** A reaction that nothing interrupts is the one taken as a whole. */
  lemma UninterruptedReaction(w: World, id: int, timeout: bool, abnormal: bool, now: real)
    requires id in w.reg.instances
    ensures var decided := Take(w, Decide(id, timeout));
            (if |decided.decisions| > |w.decisions| then Take(decided, Write(|w.decisions|, abnormal, now)) else decided) ==
            w.(reg := React(w.reg, id, EventAt(w.reg, id, timeout), abnormal, now).0)
  {
    var n := |w.decisions|;
    var decided := Take(w, Decide(id, timeout));
    if |decided.decisions| > n {
      assert decided.decisions[..n] + decided.decisions[n + 1..] == w.decisions;
    }
  }

  /** So is a separation. */
  lemma UninterruptedSeparation(w: World, id: int)
    requires id in w.reg.instances
    ensures Take(Take(Take(w, Find(id)), Mark(id)), Check(id)) == w.(reg := Effect(w.reg, Separate(id)).0)
  {
    var found := Take(w, Find(id));
    var marked := Take(found, Mark(id));
    assert found.finding - multiset{id} == w.finding;
    assert marked.separating - multiset{id} == w.separating;
  }

  // ---------------------------------------------------------------------------------------------
  // Forced separation under races
  // ---------------------------------------------------------------------------------------------

  /** A forcibly separated id is managed, and ACTIVE at most until its separation looks at the status. */
  ghost predicate Kept(w: World) {
    forall id | id in w.reg.forced :: id in w.reg.instances && (IsActive(w.reg, id) ==> w.separating[id] > 0)
  }

  /**
   A reaction that passed the check makes an instance ACTIVE after its separation has finished; or a
   separation marks an instance that has been removed since it was found.
   */
  predicate Overruns(w: World, m: Move) {
    match m
    case Write(k, _, _) =>
      k < |w.decisions| &&
      var d := w.decisions[k];
      d.id in w.reg.forced && w.separating[d.id] == 0 && d.from != Active && Transition(d.from, d.event) == Some(Active)
    case Mark(id) => w.finding[id] > 0 && id !in w.reg.instances
    case _ => false
  }

  lemma WriteStep(w: World, m: Move)
    requires Kept(w) && m.Write?
    ensures Kept(Take(w, m)) <==> !Overruns(w, m)
  {
    if Overruns(w, m) {
      var d := w.decisions[m.k];
      assert d.id in Take(w, m).reg.forced && IsActive(Take(w, m).reg, d.id);
    }
  }

  lemma SeparationStep(w: World, m: Move)
    requires Kept(w) && (m.Find? || m.Mark? || m.Check?)
    ensures Kept(Take(w, m)) <==> !Overruns(w, m)
  {
    if Overruns(w, m) {
      assert m.id in Take(w, m).reg.forced;
    }
  }

  /** One step keeps the forcibly separated instances out of service if and only if it does not overrun. */
  lemma KeptStep(w: World, m: Move)
    requires Kept(w)
    ensures Kept(Take(w, m)) <==> !Overruns(w, m)
  {
    match m
    case Write(_, _, _) => WriteStep(w, m);
    case Find(_) => SeparationStep(w, m);
    case Mark(_) => SeparationStep(w, m);
    case Check(_) => SeparationStep(w, m);
    case _ =>
  }

  ghost predicate AlwaysKept(w: World, moves: seq<Move>)
    decreases |moves|
  {
    Kept(w) && (moves == [] || AlwaysKept(Take(w, moves[0]), moves[1..]))
  }

  predicate NeverOverruns(w: World, moves: seq<Move>)
    decreases |moves|
  {
    moves == [] || (!Overruns(w, moves[0]) && NeverOverruns(Take(w, moves[0]), moves[1..]))
  }

  lemma {:induction false} KeptFrom(w: World, moves: seq<Move>)
    requires Kept(w)
    ensures AlwaysKept(w, moves) <==> NeverOverruns(w, moves)
    decreases |moves|
  {
    if moves != [] {
      KeptStep(w, moves[0]);
      if Kept(Take(w, moves[0])) { KeptFrom(Take(w, moves[0]), moves[1..]); }
    }
  }

  /**
   Over every interleaving of reactions, separations and recoveries: in every state a forcibly separated
   instance is managed and, once its separation has finished, not ACTIVE, if and only if no reaction that
   passed the check before makes it ACTIVE after, and no separation marks a removed instance.
   */
  lemma SeparatedStayOutIff(moves: seq<Move>)
    ensures AlwaysKept(IDLE, moves) <==> NeverOverruns(IDLE, moves)
  {
    KeptFrom(IDLE, moves);
  }

  lemma RunOf3(w: World, a: Move, b: Move, c: Move)
    ensures Run(w, [a, b, c]) == Take(Take(Take(w, a), b), c)
  {
    assert [a, b, c][1..] == [b, c] && [b, c][1..] == [c] && [c][1..] == [];
    assert Run(w, [a, b, c]) == Run(Take(w, a), [b, c]);
    assert Run(Take(w, a), [b, c]) == Run(Take(Take(w, a), b), [c]);
    assert Run(Take(Take(w, a), b), [c]) == Run(Take(Take(Take(w, a), b), c), []);
  }

  /** From any state: a heartbeat passes the check, the separation runs as a whole, the heartbeat writes. */
  lemma HeartbeatOverruns(w: World, id: int, now: real)
    requires w.decisions == [] && w.separating[id] == 0 && id in w.reg.instances && id !in w.reg.forced
    requires w.reg.instances[id].status in {Initial, Inactive} && AllReady(w.reg.instances[id].pods)
    ensures var v := Take(Run(Take(w, Decide(id, false)), [Find(id), Mark(id), Check(id)]), Write(0, false, now));
            id in v.reg.forced && IsActive(v.reg, id) && v.separating[id] == 0
  {
    var decided := Take(w, Decide(id, false));
    RunOf3(decided, Find(id), Mark(id), Check(id));
    UninterruptedSeparation(decided, id);
  }
}
