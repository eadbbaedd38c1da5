/**
 Controller, pusher threads, event queue and coordinator as one state machine.

 `update` changes the pusher's map under its lock and queues the event afterwards, so an event may
 be in flight between the two: `pending` holds the events of the threads that are in that gap.
 Messages may be lost and the coordinator may lose its pools at any time.
 */
module Replication {
  import opened Prelude
  import opened EventPusher
  import opened Lifecycle
  import CoordinatorPools

  datatype World = World(ctl: Controller, pending: seq<Event>, queue: seq<Event>, known: set<int>)

  const BOOT: World := World(START, [], [], {})

  datatype Move =
    | Control(step: Step)
    | Put(k: nat)
    | RequestSet
    | Deliver
    | Lose
    | CoordinatorReset
    | DeleteUnavailable(id: int)

  function Advance(w: World, m: Move): World {
    match m
    case Control(s) =>
      var e := Issued(w.ctl, s);
      w.(ctl := Next(w.ctl, s), pending := w.pending + if e.Some? then [e.value] else [])
    case Put(k) =>
      if k < |w.pending| then
        w.(pending := w.pending[..k] + w.pending[k + 1..], queue := w.queue + [w.pending[k]])
      else w
    case RequestSet => w.(queue := w.queue + [Set])
    case Deliver =>
      if w.queue == [] then w
      else
        var m := Prepare(w.ctl.announced, w.queue[0]);
        w.(queue := w.queue[1..],
           known := if m.Some? then CoordinatorPools.RefreshKnown(w.known, m.value) else w.known)
    case Lose => if w.queue == [] then w else w.(queue := w.queue[1..])
    case CoordinatorReset => w.(known := {})
    case DeleteUnavailable(id) => w.(known := w.known - {id})
  }

  function RunAll(w: World, moves: seq<Move>): World
    decreases |moves|
  {
    if moves == [] then w else RunAll(Advance(w, moves[0]), moves[1..])
  }

  predicate HasPrefill(announced: map<string, Announced>) {
    exists x :: x in announced.Values && x.role == Prefill
  }

  /** The head of the queue is a SET that will be sent, not skipped. */
  predicate SetReady(w: World) {
    w.queue != [] && w.queue[0] == Set && HasPrefill(w.ctl.announced)
  }

  /** The move makes the coordinator miss something. */
  predicate Disturbs(w: World, m: Move) {
    match m
    case Lose => w.queue != [] && w.queue[0] != Set
    case CoordinatorReset => true
    case DeleteUnavailable(_) => true
    case _ => false
  }

  predicate Contradicts(word: Option<bool>, add: bool) {
    word.Some? && word.value != add
  }

  /**
   The put lets an event pass an earlier pending one of the same instance and the opposite kind, and so
   changes the last word about that instance.
   */
  predicate Overtakes(w: World, k: nat) {
    k < |w.pending| && w.pending[k] != Set &&
    var p := w.pending[k];
    LastOp(w.pending[k + 1..], p.ins.id) == None && Contradicts(LastOp(w.pending[..k], p.ins.id), p.Add?)
  }

  /** No job-name clash, and no put that overtakes. */
  ghost predicate Orderly(w: World, m: Move) {
    && (m.Control? ==> !Clashes(w.ctl.reg, m.step))
    && (m.Put? ==> !Overtakes(w, m.k))
  }

  ghost predicate AlwaysOrderly(w: World, moves: seq<Move>)
    decreases |moves|
  {
    moves == [] || (Orderly(w, moves[0]) && AlwaysOrderly(Advance(w, moves[0]), moves[1..]))
  }

  /** Whether the coordinator is in step after a run: lost on a disturbance, regained by a delivered SET. */
  predicate InStep(w: World, moves: seq<Move>, before: bool)
    decreases |moves|
  {
    if moves == [] then before
    else
      var m := moves[0];
      InStep(Advance(w, m), moves[1..],
             if Disturbs(w, m) then false else (before || (m == Deliver && SetReady(w))))
  }

  /** The last ADD (true) or DEL (false) of `id` in a list of events. */
  function LastOp(es: seq<Event>, id: int): Option<bool> {
    if es == [] then None
    else
      var e := es[|es| - 1];
      if e != Set && e.ins.id == id then Some(e.Add?) else LastOp(es[..|es| - 1], id)
  }

  lemma {:induction false} LastOpConcat(a: seq<Event>, b: seq<Event>, id: int)
    ensures LastOp(a + b, id) == if LastOp(b, id).Some? then LastOp(b, id) else LastOp(a, id)
    decreases |b|
  {
    if b == [] {
      assert a + b == a;
    } else {
      assert (a + b)[..|a + b| - 1] == a + b[..|b| - 1];
      LastOpConcat(a, b[..|b| - 1], id);
    }
  }

  lemma {:induction false} LastOpNone(es: seq<Event>, id: int)
    ensures LastOp(es, id) == None <==> forall k | 0 <= k < |es| :: es[k] == Set || es[k].ins.id != id
    decreases |es|
  {
    if es != [] {
      LastOpNone(es[..|es| - 1], id);
    }
  }

  lemma LastOpOne(e: Event, id: int)
    ensures LastOp([e], id) == if e != Set && e.ins.id == id then Some(e.Add?) else None
  {
    assert [e][..0] == [];
  }

  /** Events still to be consumed, in an order the consumer could see. */
  function Outstanding(w: World): seq<Event> {
    w.queue + w.pending
  }

  /** Only `update` leaves events pending, so they are ADDs and DELs. */
  ghost predicate PendingOps(w: World) {
    forall k | 0 <= k < |w.pending| :: w.pending[k] != Set
  }

  /** Whatever is outstanding for an instance ends in the state the pusher's map records. */
  ghost predicate OutstandingAgrees(w: World) {
    forall id | LastOp(Outstanding(w), id).Some? ::
      LastOp(Outstanding(w), id).value == (id in AnnouncedIds(w.ctl.announced))
  }

  /** Instances with nothing outstanding are known to the coordinator exactly when they are announced. */
  ghost predicate RestAgrees(w: World) {
    forall id | LastOp(Outstanding(w), id) == None :: id in w.known <==> id in AnnouncedIds(w.ctl.announced)
  }

  ghost predicate Consistent(w: World) {
    Sane(w.ctl.reg) && Exact(w.ctl) && PendingOps(w) && OutstandingAgrees(w)
  }

  lemma ExactIds(c: Controller)
    requires Exact(c)
    ensures AnnouncedIds(c.announced) == ActiveIds(c.reg)
  {
    forall id ensures id in AnnouncedIds(c.announced) <==> id in ActiveIds(c.reg) {
      if id in ActiveIds(c.reg) {
        assert IsActive(c.reg, id);
        var j := c.reg.instances[id].job;
        assert c.announced[j] in c.announced.Values;
      }
    }
  }

  /** A READY notice adds its instance to the ACTIVE ids and a SEPARATED notice removes it. */
  lemma ActiveAfterNotice(r: Registry, r': Registry, n: Notice)
    requires Notifies(r, r', n) && n.note != Unhandled
    ensures ActiveIds(r') == if n.note == Ready then ActiveIds(r) + {n.ins.id} else ActiveIds(r) - {n.ins.id}
  {
    forall i | i != n.ins.id ensures i in ActiveIds(r') <==> i in ActiveIds(r) {
      assert SameActive(r, r', i);
    }
    assert n.ins.id in ActiveIds(r') <==> IsActive(r', n.ins.id);
  }

  /** The announced ids before and after a set of ids is changed by an event. */
  function IdsAfter(before: set<int>, e: Option<Event>): set<int> {
    match e
    case Some(Add(x)) => before + {x.id}
    case Some(Del(x)) => before - {x.id}
    case _ => before
  }

  lemma IdsAfterNotice(c: Controller, c': Controller, n: Notice)
    requires Exact(c) && Exact(c') && Notifies(c.reg, c'.reg, n) && n.note != Unhandled
    ensures AnnouncedIds(c'.announced) == IdsAfter(AnnouncedIds(c.announced), EventFor(c.announced, n))
  {
    ExactIds(c);
    ExactIds(c');
    ActiveAfterNotice(c.reg, c'.reg, n);
    if n.note == Separated && n.job !in c.announced {
      assert !IsActive(c.reg, n.ins.id);
    }
  }

  lemma IdsUnchanged(c: Controller, c': Controller)
    requires Exact(c) && Exact(c') && forall i :: SameActive(c.reg, c'.reg, i)
    ensures AnnouncedIds(c'.announced) == AnnouncedIds(c.announced)
  {
    ExactIds(c);
    ExactIds(c');
    forall i ensures i in ActiveIds(c'.reg) <==> i in ActiveIds(c.reg) {
      assert SameActive(c.reg, c'.reg, i);
    }
  }

  /** An orderly controller step changes the announced ids exactly as the event it issues says. */
  lemma IdsAfterControl(c: Controller, s: Step)
    requires Sane(c.reg) && Exact(c) && !Clashes(c.reg, s)
    ensures AnnouncedIds(Next(c, s).announced) == IdsAfter(AnnouncedIds(c.announced), Issued(c, s))
    ensures Issued(c, s).Some? ==> Issued(c, s).value != Set && Notified(c.reg, s) == Some(Issued(c, s).value.ins.id)
  {
    ExactStep(c, s);
    StepNotifies(c.reg, s);
    if Notified(c.reg, s).Some? {
      IdsAfterNotice(c, Next(c, s), Effect(c.reg, s).1.value);
    } else {
      IdsUnchanged(c, Next(c, s));
    }
  }

  /** An event queued last is the last word about its instance and about no other. */
  lemma IssueLast(w: World, s: Step, id: int)
    ensures var w' := Advance(w, Control(s));
            var e := Issued(w.ctl, s);
            LastOp(Outstanding(w'), id) ==
            if e.Some? && e.value != Set && e.value.ins.id == id then Some(e.value.Add?) else LastOp(Outstanding(w), id)
  {
    var w' := Advance(w, Control(s));
    var e := Issued(w.ctl, s);
    if e.Some? {
      assert Outstanding(w') == Outstanding(w) + [e.value];
      LastOpConcat(Outstanding(w), [e.value], id);
      LastOpOne(e.value, id);
    } else {
      assert w'.pending == w.pending;
    }
  }

  lemma OrderlyControlKeeps(w: World, s: Step)
    requires Consistent(w) && Orderly(w, Control(s))
    ensures OutstandingAgrees(Advance(w, Control(s))) && PendingOps(Advance(w, Control(s)))
    ensures RestAgrees(w) ==> RestAgrees(Advance(w, Control(s)))
  {
    IdsAfterControl(w.ctl, s);
    PendingAfterControl(w, s);
    var w' := Advance(w, Control(s));
    forall id | LastOp(Outstanding(w'), id).Some?
      ensures LastOp(Outstanding(w'), id).value == (id in AnnouncedIds(w'.ctl.announced))
    {
      OrderlyForEach(w, s, id);
    }
    if RestAgrees(w) {
      forall id | LastOp(Outstanding(w'), id) == None
        ensures id in w'.known <==> id in AnnouncedIds(w'.ctl.announced)
      {
        OrderlyForEach(w, s, id);
      }
    }
  }

  lemma OrderlyForEach(w: World, s: Step, id: int)
    requires Consistent(w) && Orderly(w, Control(s))
    ensures OrderlyFor(w, Advance(w, Control(s)), id)
  {
    IdsAfterControl(w.ctl, s);
    IssueLast(w, s, id);
  }

  /** What `OutstandingAgrees` and `RestAgrees` say about one instance carries over from `w` to `w'`. */
  ghost predicate OrderlyFor(w: World, w': World, id: int) {
    var before, after := LastOp(Outstanding(w), id), LastOp(Outstanding(w'), id);
    var had, has := id in AnnouncedIds(w.ctl.announced), id in AnnouncedIds(w'.ctl.announced);
    && ((before.Some? ==> before.value == had) ==> (after.Some? ==> after.value == has))
    && (after == None ==> before == None && has == had && w'.known == w.known)
  }

  lemma PendingAfterControl(w: World, s: Step)
    requires PendingOps(w) && (Issued(w.ctl, s).Some? ==> Issued(w.ctl, s).value != Set)
    ensures PendingOps(Advance(w, Control(s)))
  {
  }

  lemma ControlKeeps(w: World, s: Step)
    requires Consistent(w)
    ensures Consistent(Advance(w, Control(s))) <==> Orderly(w, Control(s))
    ensures Orderly(w, Control(s)) && RestAgrees(w) ==> RestAgrees(Advance(w, Control(s)))
  {
    ExactStep(w.ctl, s);
    NextKeepsSane(w.ctl.reg, s);
    if Orderly(w, Control(s)) {
      OrderlyControlKeeps(w, s);
    }
  }

  /** Moving an event to the front changes exactly the last word that its overtaking changes. */
  lemma LastOpMoves(queue: seq<Event>, a: seq<Event>, p: Event, b: seq<Event>, id: int)
    requires p != Set
    ensures var before, after := LastOp(queue + (a + ([p] + b)), id), LastOp(queue + ([p] + (a + b)), id);
            if id == p.ins.id && LastOp(b, id) == None && Contradicts(LastOp(a, id), p.Add?)
            then before == Some(p.Add?) && Contradicts(after, p.Add?)
            else before == after
  {
    LastOpOne(p, id);
    LastOpConcat(queue, a + ([p] + b), id);
    LastOpConcat(a, [p] + b, id);
    LastOpConcat([p], b, id);
    LastOpConcat(queue, [p] + (a + b), id);
    LastOpConcat([p], a + b, id);
    LastOpConcat(a, b, id);
    var la, lb := LastOp(a, id), LastOp(b, id);
    if lb == None && id == p.ins.id {
      assert LastOp(a + ([p] + b), id) == Some(p.Add?);
      assert LastOp([p] + (a + b), id) == if la.Some? then la else Some(p.Add?);
    } else if lb == None {
      assert LastOp(a + ([p] + b), id) == la;
      assert LastOp([p] + (a + b), id) == la;
    }
  }

  lemma PutMoves(w: World, k: nat, id: int)
    requires k < |w.pending| && w.pending[k] != Set
    ensures var before, after := LastOp(Outstanding(w), id), LastOp(Outstanding(Advance(w, Put(k))), id);
            if id == w.pending[k].ins.id && Overtakes(w, k)
            then before == Some(w.pending[k].Add?) && Contradicts(after, w.pending[k].Add?)
            else before == after
  {
    var p, a, b := w.pending[k], w.pending[..k], w.pending[k + 1..];
    assert w.pending == a + [p] + b;
    assert Outstanding(w) == w.queue + (a + ([p] + b));
    assert Outstanding(Advance(w, Put(k))) == w.queue + ([p] + (a + b));
    LastOpMoves(w.queue, a, p, b, id);
  }

  /** A put keeps the last word about every instance if and only if it does not overtake. */
  lemma PutKeeps(w: World, k: nat)
    requires Consistent(w)
    ensures Consistent(Advance(w, Put(k))) <==> Orderly(w, Put(k))
    ensures Orderly(w, Put(k)) && RestAgrees(w) ==> RestAgrees(Advance(w, Put(k)))
  {
    if k < |w.pending| {
      var w' := Advance(w, Put(k));
      forall id ensures !Overtakes(w, k) ==> LastOp(Outstanding(w'), id) == LastOp(Outstanding(w), id) {
        PutMoves(w, k, id);
      }
      if Overtakes(w, k) {
        PutMoves(w, k, w.pending[k].ins.id);
      }
    }
  }

  /** Taking the head off the queue takes at most the last word about its own instance. */
  lemma HeadTaken(w: World, m: Move, id: int)
    requires (m == Deliver || m == Lose) && w.queue != []
    ensures var w' := Advance(w, m);
            var e := w.queue[0];
            && w'.ctl == w.ctl && w'.pending == w.pending
            && LastOp(Outstanding(w), id) ==
               if LastOp(Outstanding(w'), id).Some? then LastOp(Outstanding(w'), id)
               else if e != Set && e.ins.id == id then Some(e.Add?) else None
  {
    var w' := Advance(w, m);
    assert Outstanding(w) == [w.queue[0]] + Outstanding(w');
    LastOpConcat([w.queue[0]], Outstanding(w'), id);
    LastOpOne(w.queue[0], id);
  }

  /** What a delivered message makes known. */
  lemma Delivered(w: World)
    requires w.queue != []
    ensures var e := w.queue[0];
            var known := Advance(w, Deliver).known;
            if e == Set then known == if HasPrefill(w.ctl.announced) then AnnouncedIds(w.ctl.announced) else w.known
            else forall id :: id in known <==> if id == e.ins.id then e.Add? else id in w.known
  {
  }

  lemma ConsumeKeeps(w: World, m: Move)
    requires Consistent(w) && (m == Deliver || m == Lose) && w.queue != []
    ensures Consistent(Advance(w, m))
    ensures RestAgrees(w) && !Disturbs(w, m) ==> RestAgrees(Advance(w, m))
    ensures m == Deliver && SetReady(w) ==> RestAgrees(Advance(w, m))
  {
    forall id {
      HeadTaken(w, m, id);
    }
    assert Consistent(Advance(w, m));
    if m == Deliver {
      Delivered(w);
    }
  }

  lemma RequestKeeps(w: World)
    requires Consistent(w)
    ensures Consistent(Advance(w, RequestSet))
    ensures RestAgrees(w) ==> RestAgrees(Advance(w, RequestSet))
  {
    var w' := Advance(w, RequestSet);
    assert Outstanding(w') == w.queue + ([Set] + w.pending);
    forall id ensures LastOp(Outstanding(w'), id) == LastOp(Outstanding(w), id) {
      LastOpConcat(w.queue, [Set] + w.pending, id);
      LastOpConcat([Set], w.pending, id);
      LastOpConcat(w.queue, w.pending, id);
      LastOpNone([Set], id);
    }
  }

  /** One move keeps the controller, the map and all outstanding events consistent iff it is orderly. */
  lemma MoveKeeps(w: World, m: Move)
    requires Consistent(w)
    ensures Consistent(Advance(w, m)) <==> Orderly(w, m)
    ensures Orderly(w, m) && RestAgrees(w) && !Disturbs(w, m) ==> RestAgrees(Advance(w, m))
    ensures m == Deliver && SetReady(w) ==> RestAgrees(Advance(w, m))
  {
    match m
    case Control(s) => ControlKeeps(w, s);
    case Put(k) => PutKeeps(w, k);
    case RequestSet => RequestKeeps(w);
    case Deliver => if w.queue != [] { ConsumeKeeps(w, m); }
    case Lose => if w.queue != [] { ConsumeKeeps(w, m); }
    case _ =>
      assert Outstanding(Advance(w, m)) == Outstanding(w);
  }

  ghost predicate AlwaysConsistent(w: World, moves: seq<Move>)
    decreases |moves|
  {
    Consistent(w) && (moves == [] || AlwaysConsistent(Advance(w, moves[0]), moves[1..]))
  }

  /**
   Over every run, with losses and resets anywhere: in every state the map holds exactly the ACTIVE
   instances and the last outstanding event of every instance says what the map says, if and only if no
   controller step clashes and no put overtakes.
   */
  lemma {:induction false} ConsistentIffOrderly(w: World, moves: seq<Move>)
    requires Consistent(w)
    ensures AlwaysConsistent(w, moves) <==> AlwaysOrderly(w, moves)
    decreases |moves|
  {
    if moves != [] {
      MoveKeeps(w, moves[0]);
      if Consistent(Advance(w, moves[0])) {
        ConsistentIffOrderly(Advance(w, moves[0]), moves[1..]);
      }
    }
  }

  lemma {:induction false} RunKeeps(w: World, moves: seq<Move>, before: bool)
    requires Consistent(w) && AlwaysOrderly(w, moves) && (before ==> RestAgrees(w))
    ensures Consistent(RunAll(w, moves))
    ensures InStep(w, moves, before) ==> RestAgrees(RunAll(w, moves))
    decreases |moves|
  {
    if moves != [] {
      var m := moves[0];
      MoveKeeps(w, m);
      RunKeeps(Advance(w, m), moves[1..],
               if Disturbs(w, m) then false else (before || (m == Deliver && SetReady(w))));
    }
  }

  // ---------------------------------------------------------------------------------------------
  // What consistency means to the coordinator
  // ---------------------------------------------------------------------------------------------

  /** The moves that queue what is pending, the oldest first, and then deliver the queue. */
  function Drain(pending: nat, queued: nat): seq<Move> {
    if pending > 0 then [Put(0)] + Drain(pending - 1, queued + 1)
    else if queued > 0 then [Deliver] + Drain(0, queued - 1)
    else []
  }

  ghost predicate NoSets(w: World) {
    forall k | 0 <= k < |Outstanding(w)| :: Outstanding(w)[k] != Set
  }

  /** Draining leaves nothing outstanding, and the last word about an instance decides whether it is known. */
  lemma {:induction false} DrainDelivers(w: World, id: int)
    requires NoSets(w)
    ensures var v := RunAll(w, Drain(|w.pending|, |w.queue|));
            && v.ctl == w.ctl && v.pending == [] && v.queue == []
            && (id in v.known <==> if LastOp(Outstanding(w), id).Some? then LastOp(Outstanding(w), id).value else id in w.known)
    decreases |w.pending|, |w.queue|
  {
    var moves := Drain(|w.pending|, |w.queue|);
    if w.pending != [] {
      var w' := Advance(w, Put(0));
      assert moves[1..] == Drain(|w'.pending|, |w'.queue|);
      assert Outstanding(w') == Outstanding(w);
      DrainDelivers(w', id);
    } else if w.queue != [] {
      var w' := Advance(w, Deliver);
      var e := w.queue[0];
      assert moves[1..] == Drain(|w'.pending|, |w'.queue|);
      assert Outstanding(w) == [e] + Outstanding(w');
      assert forall k | 0 <= k < |Outstanding(w')| :: Outstanding(w')[k] == Outstanding(w)[k + 1];
      assert e == Outstanding(w)[0];
      DrainDelivers(w', id);
      LastOpConcat([e], Outstanding(w'), id);
    } else {
      assert Outstanding(w) == [];
    }
  }

  /**
   With no SET outstanding, draining brings the coordinator to exactly the ACTIVE instances if and only
   if the last words and the instances at rest agree with the map.
   */
  lemma DrainAgreesIff(w: World)
    requires Exact(w.ctl) && NoSets(w)
    ensures RunAll(w, Drain(|w.pending|, |w.queue|)).known == ActiveIds(w.ctl.reg) <==> OutstandingAgrees(w) && RestAgrees(w)
  {
    var v := RunAll(w, Drain(|w.pending|, |w.queue|));
    ExactIds(w.ctl);
    forall id
      ensures id in v.known <==> if LastOp(Outstanding(w), id).Some? then LastOp(Outstanding(w), id).value else id in w.known
    {
      DrainDelivers(w, id);
    }
    if OutstandingAgrees(w) && RestAgrees(w) {
      assert forall id :: id in v.known <==> id in AnnouncedIds(w.ctl.announced);
    }
  }

  lemma DrainedAgrees(w: World)
    requires Consistent(w) && RestAgrees(w) && w.queue == [] && w.pending == []
    ensures w.known == ActiveIds(w.ctl.reg)
  {
    ExactIds(w.ctl);
    forall id ensures id in w.known <==> id in ActiveIds(w.ctl.reg) {
      assert LastOp(Outstanding(w), id) == None;
    }
  }

  /**
   Convergence over every orderly run from the start, with any interleaving of controller steps,
   queue insertions, SET requests, deliveries, losses and coordinator resets, and any number of pending
   events of one instance: once nothing is outstanding and every disturbance was followed by a delivered
   SET, the coordinator knows exactly the ACTIVE instances.
   */
  lemma Converges(moves: seq<Move>)
    requires AlwaysOrderly(BOOT, moves)
    requires InStep(BOOT, moves, true)
    requires var w := RunAll(BOOT, moves); w.queue == [] && w.pending == []
    ensures var w := RunAll(BOOT, moves); w.known == ActiveIds(w.ctl.reg)
    ensures var w := RunAll(BOOT, moves); w.known == AnnouncedIds(w.ctl.announced)
  {
    assert Consistent(BOOT) && RestAgrees(BOOT);
    RunKeeps(BOOT, moves, true);
    DrainedAgrees(RunAll(BOOT, moves));
    ExactIds(RunAll(BOOT, moves).ctl);
  }

  /** One delivered SET repairs any past losses or resets, for everything still outstanding. */
  lemma OneSetRepairs(past: seq<Move>, future: seq<Move>)
    requires AlwaysOrderly(BOOT, past) && SetReady(RunAll(BOOT, past))
    requires var w := Advance(RunAll(BOOT, past), Deliver);
      AlwaysOrderly(w, future) && InStep(w, future, true)
      && RunAll(w, future).queue == [] && RunAll(w, future).pending == []
    ensures var w := RunAll(Advance(RunAll(BOOT, past), Deliver), future); w.known == ActiveIds(w.ctl.reg)
  {
    assert Consistent(BOOT) && RestAgrees(BOOT);
    RunKeeps(BOOT, past, true);
    var w := RunAll(BOOT, past);
    MoveKeeps(w, Deliver);
    RunKeeps(Advance(w, Deliver), future, true);
    DrainedAgrees(RunAll(Advance(w, Deliver), future));
  }

  /**
   Events that overtook each other are repaired as well: the past need only be free of clashes when
   everything before the SET has been consumed.
   */
  lemma SetRepairsOvertaking(past: seq<Move>, future: seq<Move>)
    requires ClashFree(BOOT, past)
    requires var w := RunAll(BOOT, past); SetReady(w) && w.queue == [Set] && w.pending == []
    requires var w := Advance(RunAll(BOOT, past), Deliver);
      AlwaysOrderly(w, future) && InStep(w, future, true)
      && RunAll(w, future).queue == [] && RunAll(w, future).pending == []
    ensures var w := RunAll(Advance(RunAll(BOOT, past), Deliver), future); w.known == ActiveIds(w.ctl.reg)
  {
    ClashFreeIsExact(BOOT, past);
    var w := RunAll(BOOT, past);
    assert Outstanding(w) == [Set];
    forall id ensures LastOp(Outstanding(w), id) == None {
      LastOpNone([Set], id);
    }
    MoveKeeps(w, Deliver);
    RunKeeps(Advance(w, Deliver), future, true);
    DrainedAgrees(RunAll(Advance(w, Deliver), future));
  }

  lemma {:induction false} ClashFreeIsExact(w: World, moves: seq<Move>)
    requires Sane(w.ctl.reg) && Exact(w.ctl) && ClashFree(w, moves)
    ensures var v := RunAll(w, moves); Sane(v.ctl.reg) && Exact(v.ctl)
    decreases |moves|
  {
    if moves != [] {
      if moves[0].Control? {
        ExactStep(w.ctl, moves[0].step);
        NextKeepsSane(w.ctl.reg, moves[0].step);
      }
      ClashFreeIsExact(Advance(w, moves[0]), moves[1..]);
    }
  }

  /** No job-name clash anywhere in the run. */
  ghost predicate ClashFree(w: World, moves: seq<Move>)
    decreases |moves|
  {
    moves == [] || ((moves[0].Control? ==> !Clashes(w.ctl.reg, moves[0].step)) && ClashFree(Advance(w, moves[0]), moves[1..]))
  }

  /** A lossless clash-free run that ends drained and yet out of step. */
  ghost predicate Diverges(w: World, moves: seq<Move>) {
    && ClashFree(w, moves) && InStep(w, moves, true)
    && var v := RunAll(w, moves); v.queue == [] && v.pending == [] && v.known != ActiveIds(v.ctl.reg)
  }

  ghost predicate CanDiverge(w: World) {
    exists moves :: Diverges(w, moves)
  }

  lemma Prefixed(w: World, m: Move)
    requires CanDiverge(Advance(w, m)) && !Disturbs(w, m)
    requires m.Control? ==> !Clashes(w.ctl.reg, m.step)
    ensures CanDiverge(w)
  {
    var moves :| Diverges(Advance(w, m), moves);
    assert ([m] + moves)[1..] == moves;
    assert Diverges(w, [m] + moves);
  }

  lemma ReversedQueueDiverges(w: World, x: Announced)
    requires w.pending == [Add(x), Del(x)] && w.queue == [] && w.known == {} && ActiveIds(w.ctl.reg) == {}
    ensures CanDiverge(w)
  {
    assert w.pending[..1] + w.pending[2..] == [Add(x)];
    var w1 := w.(pending := [Add(x)], queue := [Del(x)]);
    assert Advance(w, Put(1)) == w1;
    assert w1.pending[..0] + w1.pending[1..] == [];
    var w2 := w.(pending := [], queue := [Del(x), Add(x)]);
    assert Advance(w1, Put(0)) == w2;
    var w3 := w.(pending := [], queue := [Add(x)]);
    assert Advance(w2, Deliver) == w3;
    var w4 := w.(pending := [], known := {x.id});
    assert Advance(w3, Deliver) == w4 by { assert CoordinatorPools.Ids({x}) == {x.id}; }
    assert x.id in w4.known && w4.known != {};
    assert Diverges(w4, []);
    Prefixed(w3, Deliver);
    Prefixed(w2, Deliver);
    Prefixed(w1, Put(0));
    Prefixed(w, Put(1));
  }

  lemma UpThenDownDiverges(w: World, job: string, ip: string)
    requires var x := Announced(1, Prefill);
      w == World(Controller(Registry(map[1 := Single(job, ip, Active, EpNormal)], {}), map[job := x]), [Add(x)], [], {})
    ensures CanDiverge(w)
  {
    BeatSingle(w.ctl.reg, 1, job, ip, Active, EpNormal, false);
    var down := Heartbeat(1, ip, 0.0, map[0 := EpAbnormal]);
    var w' := Advance(w, Control(down));
    assert w'.ctl.reg.instances == map[1 := Single(job, ip, Inactive, EpAbnormal)];
    assert ActiveIds(w'.ctl.reg) == {};
    ReversedQueueDiverges(w', Announced(1, Prefill));
    Prefixed(w, Control(down));
  }

  /**
   The ordering condition is needed. Two threads notify about one instance, READY then SEPARATED, and
   queue their events in the opposite order: with nothing lost the coordinator keeps an instance that
   is not ACTIVE.
   */
  lemma SwappedPutsDiverge(job: string, ip: string)
    ensures exists w :: Consistent(w) && RestAgrees(w) && CanDiverge(w)
  {
    var r := Registry(map[1 := Single(job, ip, Initial, EpInitial)], {});
    var w := World(Controller(r, map[]), [], [], {});
    BeatSingle(r, 1, job, ip, Initial, EpInitial, true);
    var up := Heartbeat(1, ip, 0.0, map[0 := EpNormal]);
    UpThenDownDiverges(Advance(w, Control(up)), job, ip);
    Prefixed(w, Control(up));
    assert Consistent(w) && RestAgrees(w);
  }

  // ---------------------------------------------------------------------------------------------
  // Which events reach the coordinator
  // ---------------------------------------------------------------------------------------------

  /**
   A consumed SET makes the coordinator know exactly the announced instances, but is skipped as long as no
   prefill instance is announced. An ADD or DEL changes what it knows of its own instance only.
   */
  lemma DeliveryOutcome(w: World)
    requires w.queue != []
    ensures var known := Advance(w, Deliver).known;
            match w.queue[0]
            case Add(x) => known == w.known + {x.id}
            case Del(x) => known == w.known - {x.id}
            case Set =>
              known == if exists j | j in w.ctl.announced :: w.ctl.announced[j].role == Prefill
                       then AnnouncedIds(w.ctl.announced) else w.known
  {
    match w.queue[0]
    case Add(x) => OneId(x);
    case Del(x) => OneId(x);
    case Set =>
      if j :| j in w.ctl.announced && w.ctl.announced[j].role == Prefill {
        assert w.ctl.announced[j] in w.ctl.announced.Values;
      }
  }

  lemma OneId(x: Announced)
    ensures CoordinatorPools.Ids({x}) == {x.id}
  {
    assert x in {x};
  }
}
