/**
 Where the load of a request is while its tasks run: applied to an endpoint, on its way there, or still in
 a workload object. The ledger says, for every run, by how much the three disagree and which steps caused
 it.
 */
module WorkloadBalance {
  import opened Prelude
  import opened CoordinatorPools
  import opened WorkloadRuns

  // ---------------------------------------------------------------------------------------------
  // Sums
  // ---------------------------------------------------------------------------------------------

  function Minus(a: Load, b: Load): Load {
    Load(a.kv - b.kv, a.tokens - b.tokens)
  }

  function Negative(a: Load): Load {
    Load(-a.kv, -a.tokens)
  }

  function Sum(xs: seq<Load>): Load {
    if xs == [] then ZERO else Plus(xs[0], Sum(xs[1..]))
  }

  lemma {:induction false} SumUpdate(xs: seq<Load>, i: nat, x: Load)
    requires i < |xs|
    ensures Sum(xs[i := x]) == Plus(Sum(xs), Minus(x, xs[i]))
    decreases |xs|
  {
    if i == 0 {
      assert xs[i := x][1..] == xs[1..];
    } else {
      assert xs[i := x][1..] == xs[1..][i - 1 := x];
      SumUpdate(xs[1..], i - 1, x);
    }
  }

  lemma {:induction false} SumAppend(xs: seq<Load>, x: Load)
    ensures Sum(xs + [x]) == Plus(Sum(xs), x)
    decreases |xs|
  {
    if xs == [] {
      assert xs + [x] == [x] && [x][1..] == [];
    } else {
      assert (xs + [x])[1..] == xs[1..] + [x];
      SumAppend(xs[1..], x);
    }
  }

  lemma {:induction false} SumOfZeros(xs: seq<Load>)
    requires forall i | 0 <= i < |xs| :: xs[i] == ZERO
    ensures Sum(xs) == ZERO
    decreases |xs|
  {
    if xs != [] { SumOfZeros(xs[1..]); }
  }

  lemma PlusZero(l: Load)
    ensures Plus(l, ZERO) == l && Plus(ZERO, l) == l
  {
  }

  /** A load at a place, seen from another place. */
  function At(at: Place, p: Place, l: Load): Load {
    if at == p then l else ZERO
  }

  /** A change a task still has to apply; a load applied before it is recorded is owed. */
  function Pending(w: World, t: Task): Load {
    match t.phase
    case Charged => Negative(t.demand)
    case Zeroed(_, amount) => amount
    case Deleting(_, amount) => amount
    case Returned(_, change) => ValueOf(w, change)
    case _ => ZERO
  }

  function Share(w: World, t: Task, p: Place): Load {
    At(t.place, p, Pending(w, t))
  }

  function PendingAt(w: World, p: Place): seq<Load> {
    seq(|w.tasks|, i requires 0 <= i < |w.tasks| => Share(w, w.tasks[i], p))
  }

  function ObjectsAt(w: World, p: Place): seq<Load> {
    seq(|w.objects|, o requires 0 <= o < |w.objects| => At(w.objects[o].place, p, w.objects[o].load))
  }

  /** What is applied and what is on its way, less what the objects hold. */
  function Imbalance(w: World, p: Place): Load {
    Minus(Plus(LoadAt(w, p), Sum(PendingAt(w, p))), Sum(ObjectsAt(w, p)))
  }

  ghost predicate Balanced(w: World) {
    forall p: Place :: Imbalance(w, p) == ZERO
  }

  // ---------------------------------------------------------------------------------------------
  // One step of the ledger
  // ---------------------------------------------------------------------------------------------

  /** An allocation has returned this object and its caller has not applied it yet. */
  predicate Waiting(w: World, o: nat) {
    exists j :: 0 <= j < |w.tasks| && w.tasks[j].phase == Returned(o, Shared(o))
  }

  /** The amount of a release, and once more if an allocation still hands out the emptied object. */
  function OnTheWay(own: Place, at: Place, p: Place, amount: Load, waiting: bool): Load {
    Plus(At(own, p, amount), if waiting then At(at, p, amount) else ZERO)
  }

  function EmptyingSlip(own: Place, at: Place, p: Place, amount: Load, waiting: bool): Load {
    Minus(OnTheWay(own, at, p, amount, waiting), At(at, p, amount))
  }

  lemma AloneOnTheWay(own: Place, at: Place, p: Place, amount: Load)
    ensures OnTheWay(own, at, p, amount, false) == At(own, p, amount)
  {
    PlusZero(At(own, p, amount));
  }

  /**
   What a step adds to the imbalance of a place. Two steps can: a preparation whose record is refused
   after its load was applied, and a release that empties an object of another place, or one whose
   allocation is not applied yet.
   */
  function Slip(w: World, s: Step, p: Place): Load {
    if s.Advance? && s.i < |w.tasks| then SlipOf(w, w.tasks[s.i], p) else ZERO
  }

  function SlipOf(w: World, t: Task, p: Place): Load {
    if t.phase.Found? && t.phase.o < |w.objects| then SlipOfEmptying(w, t, t.phase.o, p)
    else if t.phase.Charged? && t.key in w.records then At(t.place, p, t.demand)
    else ZERO
  }

  function SlipOfEmptying(w: World, t: Task, o: nat, p: Place): Load
    requires o < |w.objects|
  {
    EmptyingSlip(t.place, w.objects[o].place, p, Amount(t.action, w.objects[o].load), Waiting(w, o))
  }

  function LoadDelta(w: World, t: Task, p: Place): Load {
    match t.phase
    case Started => if t.action == Prepare then At(t.place, p, t.demand) else ZERO
    case Returned(_, change) => At(t.place, p, ValueOf(w, change))
    case _ => ZERO
  }

  /** The task's next step makes a new object. */
  predicate Makes(w: World, t: Task) {
    t.key !in w.records && (t.phase.Charged? || (t.phase.Started? && t.action == Allocate))
  }

  function ObjectDelta(w: World, t: Task, p: Place): Load {
    if Makes(w, t) then At(t.place, p, t.demand)
    else if t.phase.Found? && t.phase.o < |w.objects| then
      At(w.objects[t.phase.o].place, p, Amount(t.action, w.objects[t.phase.o].load))
    else ZERO
  }

  function PendingDelta(w: World, t: Task, p: Place): Load {
    match t.phase
    case Started =>
      if t.action == Prepare then At(t.place, p, Negative(t.demand))
      else if Makes(w, t) then At(t.place, p, t.demand)
      else ZERO
    case Charged => At(t.place, p, t.demand)
    case Returned(_, change) => At(t.place, p, Negative(ValueOf(w, change)))
    case _ => ZERO
  }

  lemma ApplyMoves(w: World, at: Place, change: Load, p: Place)
    ensures LoadAt(Apply(w, at, change), p) == Plus(LoadAt(w, p), At(at, p, change))
  {
    if at != p { PlusZero(LoadAt(w, p)); }
  }

  lemma LoadsAfter(w: World, i: nat)
    requires i < |w.tasks|
    ensures var t := w.tasks[i];
            AdvanceTask(w, i).loads ==
            if t.phase.Started? && t.action == Prepare then Apply(w, t.place, t.demand).loads
            else if t.phase.Returned? then Apply(w, t.place, ValueOf(w, t.phase.change)).loads
            else w.loads
  {
  }

  lemma LoadMoves(w: World, i: nat, p: Place)
    requires i < |w.tasks|
    ensures LoadAt(AdvanceTask(w, i), p) == Plus(LoadAt(w, p), LoadDelta(w, w.tasks[i], p))
  {
    var t := w.tasks[i];
    if t.phase.Started? && t.action == Prepare {
      assert LoadDelta(w, t, p) == At(t.place, p, t.demand);
      LoadApplied(w, i, t.demand, p);
    } else if t.phase.Returned? {
      assert LoadDelta(w, t, p) == At(t.place, p, ValueOf(w, t.phase.change));
      LoadApplied(w, i, ValueOf(w, t.phase.change), p);
    } else {
      assert LoadDelta(w, t, p) == ZERO;
      LoadStays(w, i, p);
      PlusZero(LoadAt(w, p));
    }
  }

  lemma LoadApplied(w: World, i: nat, change: Load, p: Place)
    requires i < |w.tasks|
    requires var t := w.tasks[i];
             (t.phase.Started? && t.action == Prepare && change == t.demand) || (t.phase.Returned? && change == ValueOf(w, t.phase.change))
    ensures LoadAt(AdvanceTask(w, i), p) == Plus(LoadAt(w, p), At(w.tasks[i].place, p, change))
  {
    LoadsAfter(w, i);
    ApplyMoves(w, w.tasks[i].place, change, p);
  }

  lemma LoadStays(w: World, i: nat, p: Place)
    requires i < |w.tasks| && !w.tasks[i].phase.Returned?
    requires !(w.tasks[i].phase.Started? && w.tasks[i].action == Prepare)
    ensures LoadAt(AdvanceTask(w, i), p) == LoadAt(w, p)
  {
    LoadsAfter(w, i);
  }

  lemma ObjectsMove(w: World, i: nat, p: Place)
    requires i < |w.tasks|
    ensures Sum(ObjectsAt(AdvanceTask(w, i), p)) == Plus(Sum(ObjectsAt(w, p)), ObjectDelta(w, w.tasks[i], p))
  {
    var t := w.tasks[i];
    if Makes(w, t) {
      ObjectAdded(w, i, p);
    } else if t.phase.Found? && t.phase.o < |w.objects| {
      ObjectEmptied(w, i, p);
    } else {
      ObjectsStay(w, i);
      assert ObjectsAt(AdvanceTask(w, i), p) == ObjectsAt(w, p);
      PlusZero(Sum(ObjectsAt(w, p)));
    }
  }

  lemma ObjectsStay(w: World, i: nat)
    requires i < |w.tasks| && !Makes(w, w.tasks[i])
    requires w.tasks[i].phase.Found? ==> w.tasks[i].phase.o >= |w.objects|
    ensures AdvanceTask(w, i).objects == w.objects
  {
  }

  lemma ObjectAdded(w: World, i: nat, p: Place)
    requires i < |w.tasks| && Makes(w, w.tasks[i])
    ensures Sum(ObjectsAt(AdvanceTask(w, i), p)) == Plus(Sum(ObjectsAt(w, p)), At(w.tasks[i].place, p, w.tasks[i].demand))
  {
    var v := AdvanceTask(w, i);
    var t := w.tasks[i];
    assert v.objects == w.objects + [Object(t.key, t.place, t.demand)];
    assert ObjectsAt(v, p) == ObjectsAt(w, p) + [At(t.place, p, t.demand)];
    SumAppend(ObjectsAt(w, p), At(t.place, p, t.demand));
  }

  /** Emptying a field is adding its negative. */
  lemma EmptiedIsPlus(a: Action, l: Load)
    ensures Minus(Emptied(a, l), l) == Amount(a, l) && Emptied(a, l) == Plus(l, Amount(a, l))
  {
  }

  lemma ObjectEmptied(w: World, i: nat, p: Place)
    requires i < |w.tasks| && w.tasks[i].phase.Found? && w.tasks[i].phase.o < |w.objects|
    ensures Sum(ObjectsAt(AdvanceTask(w, i), p)) == Plus(Sum(ObjectsAt(w, p)), ObjectDelta(w, w.tasks[i], p))
  {
    var v := AdvanceTask(w, i);
    var t := w.tasks[i];
    var o := t.phase.o;
    var l := w.objects[o].load;
    EmptiedIsPlus(t.action, l);
    if w.objects[o].place == p {
      assert ObjectsAt(v, p) == ObjectsAt(w, p)[o := Emptied(t.action, l)];
      SumUpdate(ObjectsAt(w, p), o, Emptied(t.action, l));
    } else {
      assert ObjectsAt(v, p) == ObjectsAt(w, p);
      PlusZero(Sum(ObjectsAt(w, p)));
    }
  }

  /** The moving task's share before and after. */
  lemma OwnShareMoves(w: World, i: nat, p: Place)
    requires WellFormed(w) && i < |w.tasks| && !w.tasks[i].phase.Found?
    ensures |AdvanceTask(w, i).tasks| == |w.tasks|
    ensures Minus(Share(AdvanceTask(w, i), AdvanceTask(w, i).tasks[i], p), Share(w, w.tasks[i], p)) == PendingDelta(w, w.tasks[i], p)
  {
    var t := w.tasks[i];
    assert TaskOk(w, t);
    OthersStay(w, i, i);
    if t.phase.Zeroed? || t.phase.Deleting? || t.phase.Finished? {
      assert Share(AdvanceTask(w, i), AdvanceTask(w, i).tasks[i], p) == Share(w, t, p);
    } else if t.phase.Started? && t.action == Allocate && t.key !in w.records {
      assert Pending(AdvanceTask(w, i), AdvanceTask(w, i).tasks[i]) == t.demand;
    }
  }

  /** Other tasks' shares, unless an object that one of them hands out is emptied. */
  lemma OtherShareStays(w: World, i: nat, j: nat, p: Place)
    requires WellFormed(w) && i < |w.tasks| && j < |w.tasks| && j != i
    requires w.tasks[i].phase.Found? ==> w.tasks[j].phase != Returned(w.tasks[i].phase.o, Shared(w.tasks[i].phase.o))
    ensures |AdvanceTask(w, i).tasks| == |w.tasks|
    ensures Share(AdvanceTask(w, i), AdvanceTask(w, i).tasks[j], p) == Share(w, w.tasks[j], p)
  {
    OthersStay(w, i, j);
    assert TaskOk(w, w.tasks[j]) && TaskOk(w, w.tasks[i]);
    if w.tasks[j].phase.Returned? && w.tasks[j].phase.change.Shared? {
      ObjectKept(w, i, w.tasks[j].phase.change.shared);
    }
  }

  lemma ObjectKept(w: World, i: nat, o: nat)
    requires i < |w.tasks| && o < |w.objects| && (w.tasks[i].phase.Found? ==> w.tasks[i].phase.o != o)
    ensures o < |AdvanceTask(w, i).objects| && AdvanceTask(w, i).objects[o] == w.objects[o]
  {
  }

  /** When one task's share changes, the sum of all shares changes by as much. */
  lemma OneShareMoves(w: World, v: World, i: nat, p: Place)
    requires i < |w.tasks| && |v.tasks| == |w.tasks|
    requires forall j | 0 <= j < |w.tasks| && j != i :: Share(v, v.tasks[j], p) == Share(w, w.tasks[j], p)
    ensures Sum(PendingAt(v, p)) == Plus(Sum(PendingAt(w, p)), Minus(Share(v, v.tasks[i], p), Share(w, w.tasks[i], p)))
  {
    assert PendingAt(v, p) == PendingAt(w, p)[i := Share(v, v.tasks[i], p)];
    SumUpdate(PendingAt(w, p), i, Share(v, v.tasks[i], p));
  }

  lemma TwoSharesMove(w: World, v: World, i: nat, k: nat, p: Place)
    requires i < |w.tasks| && k < |w.tasks| && i != k && |v.tasks| == |w.tasks|
    requires forall j | 0 <= j < |w.tasks| && j != i && j != k :: Share(v, v.tasks[j], p) == Share(w, w.tasks[j], p)
    ensures Sum(PendingAt(v, p)) ==
            Plus(Plus(Sum(PendingAt(w, p)), Minus(Share(v, v.tasks[i], p), Share(w, w.tasks[i], p))),
                 Minus(Share(v, v.tasks[k], p), Share(w, w.tasks[k], p)))
  {
    var half := PendingAt(w, p)[i := Share(v, v.tasks[i], p)];
    assert PendingAt(v, p) == half[k := Share(v, v.tasks[k], p)];
    SumUpdate(PendingAt(w, p), i, Share(v, v.tasks[i], p));
    SumUpdate(half, k, Share(v, v.tasks[k], p));
  }

  lemma PendingMoves(w: World, i: nat, p: Place)
    requires WellFormed(w) && i < |w.tasks| && !w.tasks[i].phase.Found?
    ensures Sum(PendingAt(AdvanceTask(w, i), p)) == Plus(Sum(PendingAt(w, p)), PendingDelta(w, w.tasks[i], p))
  {
    var v := AdvanceTask(w, i);
    OthersStay(w, i, i);
    forall j | 0 <= j < |w.tasks| && j != i ensures Share(v, v.tasks[j], p) == Share(w, w.tasks[j], p) {
      OtherShareStays(w, i, j, p);
    }
    OneShareMoves(w, v, i, p);
    OwnShareMoves(w, i, p);
  }

  /** The emptying release's own share: nothing before, the amount after. */
  lemma EmptyingShare(w: World, i: nat, p: Place)
    requires i < |w.tasks| && w.tasks[i].phase.Found? && w.tasks[i].phase.o < |w.objects|
    ensures var t := w.tasks[i];
            var v := AdvanceTask(w, i);
            && |v.tasks| == |w.tasks|
            && Minus(Share(v, v.tasks[i], p), Share(w, t, p)) == At(t.place, p, Amount(t.action, w.objects[t.phase.o].load))
  {
  }

  /** The share of an allocation that hands out the emptied object. */
  lemma WaitingShare(w: World, i: nat, k: nat, p: Place)
    requires WellFormed(w) && i < |w.tasks| && k < |w.tasks| && k != i
    requires w.tasks[i].phase.Found? && w.tasks[k].phase == Returned(w.tasks[i].phase.o, Shared(w.tasks[i].phase.o))
    ensures var o := w.tasks[i].phase.o;
            var v := AdvanceTask(w, i);
            && o < |w.objects| && |v.tasks| == |w.tasks|
            && Minus(Share(v, v.tasks[k], p), Share(w, w.tasks[k], p)) ==
               At(w.objects[o].place, p, Amount(w.tasks[i].action, w.objects[o].load))
  {
    assert TaskOk(w, w.tasks[i]) && TaskOk(w, w.tasks[k]);
    OthersStay(w, i, k);
    var o := w.tasks[i].phase.o;
    EmptiedIsPlus(w.tasks[i].action, w.objects[o].load);
    assert AdvanceTask(w, i).objects[o].load == Emptied(w.tasks[i].action, w.objects[o].load);
  }

  /** A release that empties an object nobody hands out: its own share is all that changes. */
  lemma EmptyingAlone(w: World, i: nat, p: Place)
    requires WellFormed(w) && i < |w.tasks| && w.tasks[i].phase.Found? && w.tasks[i].phase.o < |w.objects|
    requires !Waiting(w, w.tasks[i].phase.o)
    ensures Sum(PendingAt(AdvanceTask(w, i), p)) ==
            Plus(Sum(PendingAt(w, p)), At(w.tasks[i].place, p, Amount(w.tasks[i].action, w.objects[w.tasks[i].phase.o].load)))
  {
    var v := AdvanceTask(w, i);
    EmptyingShare(w, i, p);
    forall j | 0 <= j < |w.tasks| && j != i ensures Share(v, v.tasks[j], p) == Share(w, w.tasks[j], p) {
      OtherShareStays(w, i, j, p);
    }
    OneShareMoves(w, v, i, p);
  }

  /** While an allocation hands the object out, its share changes as well. */
  lemma EmptyingWhileWaiting(w: World, i: nat, p: Place)
    requires WellFormed(w) && i < |w.tasks| && w.tasks[i].phase.Found? && w.tasks[i].phase.o < |w.objects|
    requires Waiting(w, w.tasks[i].phase.o)
    ensures var held := w.objects[w.tasks[i].phase.o];
            var amount := Amount(w.tasks[i].action, held.load);
            Sum(PendingAt(AdvanceTask(w, i), p)) ==
            Plus(Sum(PendingAt(w, p)), Plus(At(w.tasks[i].place, p, amount), At(held.place, p, amount)))
  {
    var v := AdvanceTask(w, i);
    var o := w.tasks[i].phase.o;
    var k :| 0 <= k < |w.tasks| && w.tasks[k].phase == Returned(o, Shared(o));
    EmptyingShare(w, i, p);
    forall j | 0 <= j < |w.tasks| && j != i && j != k ensures Share(v, v.tasks[j], p) == Share(w, w.tasks[j], p) {
      OnlyOneWaits(w, o, j, k);
      OtherShareStays(w, i, j, p);
    }
    WaitingShare(w, i, k, p);
    TwoSharesMove(w, v, i, k, p);
    Regroup(Sum(PendingAt(w, p)), Minus(Share(v, v.tasks[i], p), Share(w, w.tasks[i], p)),
            Minus(Share(v, v.tasks[k], p), Share(w, w.tasks[k], p)));
  }

  lemma Regroup(a: Load, b: Load, c: Load)
    ensures Plus(Plus(a, b), c) == Plus(a, Plus(b, c))
  {
  }

  lemma OnlyOneWaits(w: World, o: nat, j: nat, k: nat)
    requires WellFormed(w) && j < |w.tasks| && k < |w.tasks| && j != k
    requires w.tasks[k].phase == Returned(o, Shared(o))
    ensures w.tasks[j].phase != Returned(o, Shared(o))
  {
    assert TaskOk(w, w.tasks[j]) && TaskOk(w, w.tasks[k]);
    if j < k { assert CreatorsDiffer(w.tasks[j], w.tasks[k]); } else { assert CreatorsDiffer(w.tasks[k], w.tasks[j]); }
  }

  lemma Cancels(a: Load, b: Load)
    ensures Minus(Plus(a, Negative(a)), ZERO) == ZERO
    ensures Minus(Plus(ZERO, a), b) == Minus(a, b)
    ensures Minus(a, a) == ZERO && Minus(a, ZERO) == a
  {
  }

  lemma NegativeAt(at: Place, p: Place, l: Load)
    ensures At(at, p, Negative(l)) == Negative(At(at, p, l))
  {
  }

  /** What moved, put together. */
  function Moved(w: World, t: Task, p: Place): Load {
    Minus(Plus(LoadDelta(w, t, p), PendingDelta(w, t, p)), ObjectDelta(w, t, p))
  }

  lemma MovedAtStart(w: World, t: Task, p: Place)
    requires t.phase.Started?
    ensures Moved(w, t, p) == ZERO
  {
    var d := At(t.place, p, t.demand);
    if t.action == Prepare {
      NegativeAt(t.place, p, t.demand);
      assert LoadDelta(w, t, p) == d && PendingDelta(w, t, p) == Negative(d) && ObjectDelta(w, t, p) == ZERO;
      Cancels(d, ZERO);
    } else if Makes(w, t) {
      assert LoadDelta(w, t, p) == ZERO && PendingDelta(w, t, p) == d && ObjectDelta(w, t, p) == d;
      Cancels(d, d);
    } else {
      assert LoadDelta(w, t, p) == ZERO && PendingDelta(w, t, p) == ZERO && ObjectDelta(w, t, p) == ZERO;
      Cancels(ZERO, ZERO);
    }
  }

  lemma MovedWhenCharged(w: World, t: Task, p: Place)
    requires t.phase.Charged?
    ensures Moved(w, t, p) == if t.key in w.records then At(t.place, p, t.demand) else ZERO
  {
    var d := At(t.place, p, t.demand);
    if t.key in w.records {
      assert LoadDelta(w, t, p) == ZERO && PendingDelta(w, t, p) == d && ObjectDelta(w, t, p) == ZERO;
      Cancels(d, ZERO);
    } else {
      assert LoadDelta(w, t, p) == ZERO && PendingDelta(w, t, p) == d && ObjectDelta(w, t, p) == d;
      Cancels(d, d);
    }
  }

  lemma MovedWhenReturned(w: World, t: Task, p: Place)
    requires t.phase.Returned?
    ensures Moved(w, t, p) == ZERO
  {
    var d := At(t.place, p, ValueOf(w, t.phase.change));
    NegativeAt(t.place, p, ValueOf(w, t.phase.change));
    assert LoadDelta(w, t, p) == d && PendingDelta(w, t, p) == Negative(d) && ObjectDelta(w, t, p) == ZERO;
    Cancels(d, ZERO);
  }

  lemma MovedIsSlip(w: World, i: nat, p: Place)
    requires i < |w.tasks| && !w.tasks[i].phase.Found?
    ensures Moved(w, w.tasks[i], p) == Slip(w, Advance(i), p)
  {
    var t := w.tasks[i];
    if t.phase.Started? {
      MovedAtStart(w, t, p);
    } else if t.phase.Charged? {
      MovedWhenCharged(w, t, p);
    } else if t.phase.Returned? {
      MovedWhenReturned(w, t, p);
    } else {
      assert LoadDelta(w, t, p) == ZERO && PendingDelta(w, t, p) == ZERO && ObjectDelta(w, t, p) == ZERO;
      Cancels(ZERO, ZERO);
    }
  }

  lemma Settles(l: Load, s: Load, o: Load, dl: Load, ds: Load, d: Load)
    ensures Minus(Plus(Plus(l, dl), Plus(s, ds)), Plus(o, d)) == Plus(Minus(Plus(l, s), o), Minus(Plus(dl, ds), d))
  {
  }

  lemma AdvanceLedger(w: World, i: nat, p: Place)
    requires WellFormed(w) && i < |w.tasks|
    ensures Imbalance(AdvanceTask(w, i), p) == Plus(Imbalance(w, p), Slip(w, Advance(i), p))
  {
    if w.tasks[i].phase.Found? {
      assert TaskOk(w, w.tasks[i]);
      EmptyingLedger(w, i, p);
      SlipWhenFound(w, i, p);
    } else {
      MovingLedger(w, i, p);
    }
  }

  lemma MovingLedger(w: World, i: nat, p: Place)
    requires WellFormed(w) && i < |w.tasks| && !w.tasks[i].phase.Found?
    ensures Imbalance(AdvanceTask(w, i), p) == Plus(Imbalance(w, p), Slip(w, Advance(i), p))
  {
    LoadMoves(w, i, p);
    PendingMoves(w, i, p);
    ObjectsMove(w, i, p);
    MovedIsSlip(w, i, p);
    Settles(LoadAt(w, p), Sum(PendingAt(w, p)), Sum(ObjectsAt(w, p)),
            LoadDelta(w, w.tasks[i], p), PendingDelta(w, w.tasks[i], p), ObjectDelta(w, w.tasks[i], p));
  }

  lemma ObjectDeltaOfEmptying(w: World, i: nat, p: Place)
    requires i < |w.tasks| && w.tasks[i].phase.Found? && w.tasks[i].phase.o < |w.objects|
    ensures var t := w.tasks[i];
            var held := w.objects[t.phase.o];
            Sum(ObjectsAt(AdvanceTask(w, i), p)) == Plus(Sum(ObjectsAt(w, p)), At(held.place, p, Amount(t.action, held.load)))
  {
    ObjectEmptied(w, i, p);
  }

  lemma EmptyingLedger(w: World, i: nat, p: Place)
    requires WellFormed(w) && i < |w.tasks| && w.tasks[i].phase.Found? && w.tasks[i].phase.o < |w.objects|
    ensures Imbalance(AdvanceTask(w, i), p) == Plus(Imbalance(w, p), SlipOfEmptying(w, w.tasks[i], w.tasks[i].phase.o, p))
  {
    var t := w.tasks[i];
    var held := w.objects[t.phase.o];
    EmptyingPending(w, i, p);
    LoadStays(w, i, p);
    ObjectDeltaOfEmptying(w, i, p);
    EmptyingSlips(w, i, p, held.place, Amount(t.action, held.load), Waiting(w, t.phase.o));
  }

  lemma SlipWhenFound(w: World, i: nat, p: Place)
    requires i < |w.tasks| && w.tasks[i].phase.Found? && w.tasks[i].phase.o < |w.objects|
    ensures Slip(w, Advance(i), p) == SlipOfEmptying(w, w.tasks[i], w.tasks[i].phase.o, p)
  {
  }

  lemma EmptyingPending(w: World, i: nat, p: Place)
    requires WellFormed(w) && i < |w.tasks| && w.tasks[i].phase.Found? && w.tasks[i].phase.o < |w.objects|
    ensures var t := w.tasks[i];
            var held := w.objects[t.phase.o];
            Sum(PendingAt(AdvanceTask(w, i), p)) ==
            Plus(Sum(PendingAt(w, p)), OnTheWay(t.place, held.place, p, Amount(t.action, held.load), Waiting(w, t.phase.o)))
  {
    var t := w.tasks[i];
    var held := w.objects[t.phase.o];
    var amount := Amount(t.action, held.load);
    if Waiting(w, t.phase.o) {
      EmptyingWhileWaiting(w, i, p);
      assert OnTheWay(t.place, held.place, p, amount, true) == Plus(At(t.place, p, amount), At(held.place, p, amount));
    } else {
      EmptyingAlone(w, i, p);
      AloneOnTheWay(t.place, held.place, p, amount);
    }
  }

  lemma EmptyingSlips(w: World, i: nat, p: Place, at: Place, amount: Load, waiting: bool)
    requires i < |w.tasks|
    requires var v := AdvanceTask(w, i);
             && LoadAt(v, p) == LoadAt(w, p)
             && Sum(PendingAt(v, p)) == Plus(Sum(PendingAt(w, p)), OnTheWay(w.tasks[i].place, at, p, amount, waiting))
             && Sum(ObjectsAt(v, p)) == Plus(Sum(ObjectsAt(w, p)), At(at, p, amount))
    ensures Imbalance(AdvanceTask(w, i), p) == Plus(Imbalance(w, p), EmptyingSlip(w.tasks[i].place, at, p, amount, waiting))
  {
    SettlesStill(LoadAt(w, p), Sum(PendingAt(w, p)), Sum(ObjectsAt(w, p)),
                 OnTheWay(w.tasks[i].place, at, p, amount, waiting), At(at, p, amount));
  }

  lemma SettlesStill(l: Load, s: Load, o: Load, ds: Load, d: Load)
    ensures Minus(Plus(l, Plus(s, ds)), Plus(o, d)) == Plus(Minus(Plus(l, s), o), Minus(ds, d))
  {
  }

  lemma BeginLedger(w: World, s: Step, p: Place)
    requires WellFormed(w) && s.Begin?
    ensures Imbalance(Take(w, s), p) == Imbalance(w, p)
  {
    var v := Take(w, s);
    forall j | 0 <= j < |w.tasks| ensures Share(v, v.tasks[j], p) == Share(w, w.tasks[j], p) {
      assert v.tasks[j] == w.tasks[j];
    }
    assert PendingAt(v, p) == PendingAt(w, p) + [ZERO];
    SumAppend(PendingAt(w, p), ZERO);
    PlusZero(Sum(PendingAt(w, p)));
    assert ObjectsAt(v, p) == ObjectsAt(w, p);
  }

  lemma DropLedger(w: World, s: Step, p: Place)
    requires s.Drop?
    ensures Imbalance(Take(w, s), p) == Imbalance(w, p)
  {
    assert PendingAt(Take(w, s), p) == PendingAt(w, p);
    assert ObjectsAt(Take(w, s), p) == ObjectsAt(w, p);
  }

  /** The ledger of one step, whatever the callers do: the imbalance changes by exactly the slip. */
  lemma StepLedger(w: World, s: Step, p: Place)
    requires WellFormed(w)
    ensures Imbalance(Take(w, s), p) == Plus(Imbalance(w, p), Slip(w, s, p))
  {
    if s.Advance? && s.i < |w.tasks| {
      AdvanceLedger(w, s.i, p);
    } else {
      QuietLedger(w, s, p);
      PlusZero(Imbalance(w, p));
    }
  }

  lemma QuietLedger(w: World, s: Step, p: Place)
    requires WellFormed(w) && !(s.Advance? && s.i < |w.tasks|)
    ensures Imbalance(Take(w, s), p) == Imbalance(w, p)
  {
    match s
    case Begin(_, _, _, _) => BeginLedger(w, s, p);
    case Drop(_) => DropLedger(w, s, p);
    case Advance(_) =>
  }

  // ---------------------------------------------------------------------------------------------
  // The ledger of runs
  // ---------------------------------------------------------------------------------------------

  /** All slips of a run at a place. */
  function TotalSlip(w: World, steps: seq<Step>, p: Place): Load
    decreases |steps|
  {
    if steps == [] then ZERO else Plus(Slip(w, steps[0], p), TotalSlip(Take(w, steps[0]), steps[1..], p))
  }

  lemma {:induction false} RunKeepsWellFormed(w: World, steps: seq<Step>)
    requires WellFormed(w)
    ensures WellFormed(Run(w, steps))
    decreases |steps|
  {
    if steps != [] {
      StepKeepsWellFormed(w, steps[0]);
      RunKeepsWellFormed(Take(w, steps[0]), steps[1..]);
    }
  }

  lemma {:induction false} LedgerOfRun(w: World, steps: seq<Step>, p: Place)
    requires WellFormed(w)
    ensures Imbalance(Run(w, steps), p) == Plus(Imbalance(w, p), TotalSlip(w, steps, p))
    decreases |steps|
  {
    if steps == [] {
      PlusZero(Imbalance(w, p));
    } else {
      StepLedger(w, steps[0], p);
      StepKeepsWellFormed(w, steps[0]);
      LedgerOfRun(Take(w, steps[0]), steps[1..], p);
      Regroup(Imbalance(w, p), Slip(w, steps[0], p), TotalSlip(Take(w, steps[0]), steps[1..], p));
    }
  }

  lemma NothingAtStart(p: Place)
    ensures Imbalance(START, p) == ZERO
  {
    assert PendingAt(START, p) == [] && ObjectsAt(START, p) == [];
    PlusZero(ZERO);
    Cancels(ZERO, ZERO);
  }

  lemma StartIsBalanced()
    ensures WellFormed(START) && Unique(START) && Balanced(START)
  {
    forall p: Place ensures Imbalance(START, p) == ZERO {
      NothingAtStart(p);
    }
  }

  /**
   The ledger, over every interleaving of allocations, preparations, releases and dropped requests, with
   no discipline of the callers: what is applied to an endpoint and on its way to it differs from what
   its workload objects hold by exactly the slips of the run.
   */
  lemma Ledger(steps: seq<Step>, p: Place)
    ensures Imbalance(Run(START, steps), p) == TotalSlip(START, steps, p)
  {
    StartIsBalanced();
    LedgerOfRun(START, steps, p);
    PlusZero(TotalSlip(START, steps, p));
  }

  /**
   A step slips nowhere: a preparation is not refused unless it is for nothing, and a release empties
   nothing, or an object of its own endpoint that no allocation still hands out.
   */
  predicate Harmless(w: World, s: Step) {
    s.Advance? && s.i < |w.tasks| ==>
      var t := w.tasks[s.i];
      match t.phase
      case Charged => t.key !in w.records || t.demand == ZERO
      case Found(o) =>
        o < |w.objects| ==>
          Amount(t.action, w.objects[o].load) == ZERO || (w.objects[o].place == t.place && !Waiting(w, o))
      case _ => true
  }

  lemma NothingSlips(own: Place, at: Place, p: Place, amount: Load, waiting: bool)
    requires amount == ZERO || (own == at && !waiting)
    ensures EmptyingSlip(own, at, p, amount, waiting) == ZERO
  {
    if amount == ZERO {
      Cancels(ZERO, ZERO);
    } else {
      PlusZero(At(own, p, amount));
      Cancels(At(own, p, amount), ZERO);
    }
  }

  lemma HarmlessSlipsNowhere(w: World, s: Step, p: Place)
    requires Harmless(w, s)
    ensures Slip(w, s, p) == ZERO
  {
    if s.Advance? && s.i < |w.tasks| {
      var t := w.tasks[s.i];
      if t.phase.Found? && t.phase.o < |w.objects| {
        var held := w.objects[t.phase.o];
        NothingSlips(t.place, held.place, p, Amount(t.action, held.load), Waiting(w, t.phase.o));
      }
    }
  }

  /** Where a step slips that is not harmless. */
  lemma HarmSlips(w: World, s: Step)
    requires WellFormed(w) && !Harmless(w, s)
    ensures Slip(w, s, w.tasks[s.i].place) != ZERO
  {
    var t := w.tasks[s.i];
    if t.phase.Found? {
      var held := w.objects[t.phase.o];
      var amount := Amount(t.action, held.load);
      if held.place == t.place {
        Twice(amount);
      } else {
        PlusZero(amount);
        Cancels(amount, ZERO);
      }
    }
  }

  lemma Twice(a: Load)
    ensures Minus(Plus(a, a), a) == a
  {
  }

  /** One step keeps everything balanced if and only if it is harmless. */
  lemma BalanceStep(w: World, s: Step)
    requires WellFormed(w) && Balanced(w)
    ensures Balanced(Take(w, s)) <==> Harmless(w, s)
  {
    forall p: Place ensures Imbalance(Take(w, s), p) == Slip(w, s, p) {
      StepLedger(w, s, p);
      PlusZero(Slip(w, s, p));
    }
    if Harmless(w, s) {
      forall p: Place ensures Imbalance(Take(w, s), p) == ZERO {
        HarmlessSlipsNowhere(w, s, p);
      }
    } else {
      HarmSlips(w, s);
      assert Imbalance(Take(w, s), w.tasks[s.i].place) != ZERO;
    }
  }

  ghost predicate AlwaysBalanced(w: World, steps: seq<Step>)
    decreases |steps|
  {
    Balanced(w) && (steps == [] || AlwaysBalanced(Take(w, steps[0]), steps[1..]))
  }

  predicate AlwaysHarmless(w: World, steps: seq<Step>)
    decreases |steps|
  {
    steps == [] || (Harmless(w, steps[0]) && AlwaysHarmless(Take(w, steps[0]), steps[1..]))
  }

  lemma {:induction false} BalancedIffHarmless(w: World, steps: seq<Step>)
    requires WellFormed(w) && Balanced(w)
    ensures AlwaysBalanced(w, steps) <==> AlwaysHarmless(w, steps)
    decreases |steps|
  {
    if steps != [] {
      BalanceStep(w, steps[0]);
      StepKeepsWellFormed(w, steps[0]);
      if Balanced(Take(w, steps[0])) { BalancedIffHarmless(Take(w, steps[0]), steps[1..]); }
    }
  }

  /**
   Over every run, dropped requests included: applied loads plus changes on their way equal the workload
   objects of each endpoint in every state if and only if every step is harmless.
   */
  lemma LoadsAreConserved(steps: seq<Step>)
    ensures AlwaysBalanced(START, steps) <==> AlwaysHarmless(START, steps)
  {
    StartIsBalanced();
    BalancedIffHarmless(START, steps);
  }

  lemma {:induction false} HarmlessEndsBalanced(w: World, steps: seq<Step>)
    requires WellFormed(w) && Balanced(w) && AlwaysHarmless(w, steps)
    ensures Balanced(Run(w, steps))
    decreases |steps|
  {
    if steps != [] {
      BalanceStep(w, steps[0]);
      StepKeepsWellFormed(w, steps[0]);
      HarmlessEndsBalanced(Take(w, steps[0]), steps[1..]);
    }
  }
}
