/**
 The changes that the tasks of one request and role return. Every change comes out of the workload object:
 what has been returned is what the objects of the key still hold, less what releases have taken out and
 not returned yet.
 */
module WorkloadReturns {
  import opened Prelude
  import opened CoordinatorPools
  import opened WorkloadRuns
  import opened WorkloadBalance
  import opened WorkloadRecords

  /** The change the task returns with its next step; a creator's is its demand, once it is recorded. */
  function ReturnedBy(w: World, t: Task): Load {
    match NextPhase(w, t)
    case Returned(_, Fixed(amount)) => amount
    case _ => if Makes(w, t) then t.demand else ZERO
  }

  function OfKey(own: ReqKey, k: ReqKey, l: Load): Load {
    if own == k then l else ZERO
  }

  /** The change returned by a step for a key. */
  function Returns(w: World, s: Step, k: ReqKey): Load {
    if s.Advance? && s.i < |w.tasks| then OfKey(w.tasks[s.i].key, k, ReturnedBy(w, w.tasks[s.i])) else ZERO
  }

  /** The sum of all changes returned for a key in a run. */
  function ReturnedIn(w: World, steps: seq<Step>, k: ReqKey): Load
    decreases |steps|
  {
    if steps == [] then ZERO
    else Plus(Returns(w, steps[0], k), ReturnedIn(Take(w, steps[0]), steps[1..], k))
  }

  /** What a release has taken out of its object and not returned yet. */
  function InHand(t: Task): Load {
    match t.phase
    case Zeroed(_, amount) => amount
    case Deleting(_, amount) => amount
    case _ => ZERO
  }

  function InHands(w: World, k: ReqKey): seq<Load> {
    seq(|w.tasks|, i requires 0 <= i < |w.tasks| => OfKey(w.tasks[i].key, k, InHand(w.tasks[i])))
  }

  function ObjectsOf(w: World, k: ReqKey): seq<Load> {
    seq(|w.objects|, o requires 0 <= o < |w.objects| => OfKey(w.objects[o].key, k, w.objects[o].load))
  }

  /** What the objects of the key hold, less what is in hand. */
  function Outstanding(w: World, k: ReqKey): Load {
    Minus(Sum(ObjectsOf(w, k)), Sum(InHands(w, k)))
  }

  // ---------------------------------------------------------------------------------------------
  // The ledger of a key
  // ---------------------------------------------------------------------------------------------

  /** What the task's next step adds to its object. */
  function Added(w: World, t: Task): Load {
    if Makes(w, t) then t.demand
    else if t.phase.Found? && t.phase.o < |w.objects| then Amount(t.action, w.objects[t.phase.o].load)
    else ZERO
  }

  /** One task: what it returns is what it adds to the object, less what it takes into its hand. */
  lemma OneTask(w: World, i: nat)
    requires WellFormed(w) && i < |w.tasks|
    ensures |AdvanceTask(w, i).tasks| == |w.tasks|
    ensures ReturnedBy(w, w.tasks[i]) == Minus(Added(w, w.tasks[i]), Minus(InHand(AdvanceTask(w, i).tasks[i]), InHand(w.tasks[i])))
  {
    assert TaskOk(w, w.tasks[i]);
    OthersStay(w, i, i);
  }

  lemma ObjectsMoveFor(w: World, i: nat, k: ReqKey)
    requires WellFormed(w) && i < |w.tasks|
    ensures Sum(ObjectsOf(AdvanceTask(w, i), k)) == Plus(Sum(ObjectsOf(w, k)), OfKey(w.tasks[i].key, k, Added(w, w.tasks[i])))
  {
    var v := AdvanceTask(w, i);
    var t := w.tasks[i];
    assert TaskOk(w, t);
    if Makes(w, t) {
      assert v.objects == w.objects + [Object(t.key, t.place, t.demand)];
      assert ObjectsOf(v, k) == ObjectsOf(w, k) + [OfKey(t.key, k, t.demand)];
      SumAppend(ObjectsOf(w, k), OfKey(t.key, k, t.demand));
    } else if t.phase.Found? {
      ObjectEmptiedFor(w, i, k);
    } else {
      ObjectsStay(w, i);
      assert ObjectsOf(v, k) == ObjectsOf(w, k);
      PlusZero(Sum(ObjectsOf(w, k)));
    }
  }

  lemma ObjectEmptiedFor(w: World, i: nat, k: ReqKey)
    requires WellFormed(w) && i < |w.tasks| && w.tasks[i].phase.Found?
    ensures Sum(ObjectsOf(AdvanceTask(w, i), k)) == Plus(Sum(ObjectsOf(w, k)), OfKey(w.tasks[i].key, k, Added(w, w.tasks[i])))
  {
    var v := AdvanceTask(w, i);
    var t := w.tasks[i];
    assert TaskOk(w, t);
    var o := t.phase.o;
    EmptiedIsPlus(t.action, w.objects[o].load);
    if t.key == k {
      assert ObjectsOf(v, k) == ObjectsOf(w, k)[o := Emptied(t.action, w.objects[o].load)];
      SumUpdate(ObjectsOf(w, k), o, Emptied(t.action, w.objects[o].load));
    } else {
      assert ObjectsOf(v, k) == ObjectsOf(w, k);
      PlusZero(Sum(ObjectsOf(w, k)));
    }
  }

  lemma HandsMove(w: World, i: nat, k: ReqKey)
    requires i < |w.tasks|
    ensures |AdvanceTask(w, i).tasks| == |w.tasks|
    ensures Sum(InHands(AdvanceTask(w, i), k)) ==
            Plus(Sum(InHands(w, k)), OfKey(w.tasks[i].key, k, Minus(InHand(AdvanceTask(w, i).tasks[i]), InHand(w.tasks[i]))))
  {
    var v := AdvanceTask(w, i);
    OthersStay(w, i, i);
    var x := OfKey(v.tasks[i].key, k, InHand(v.tasks[i]));
    forall j | 0 <= j < |w.tasks| ensures InHands(v, k)[j] == InHands(w, k)[i := x][j] {
      OthersStay(w, i, j);
    }
    assert InHands(v, k) == InHands(w, k)[i := x];
    SumUpdate(InHands(w, k), i, x);
    DifferenceOfKey(w.tasks[i].key, k, InHand(v.tasks[i]), InHand(w.tasks[i]));
  }

  lemma DifferenceOfKey(own: ReqKey, k: ReqKey, a: Load, b: Load)
    ensures Minus(OfKey(own, k, a), OfKey(own, k, b)) == OfKey(own, k, Minus(a, b))
  {
  }

  lemma MovedDifference(a: Load, b: Load, x: Load, y: Load)
    ensures Minus(Plus(a, x), Plus(b, y)) == Plus(Minus(x, y), Minus(a, b))
  {
  }

  lemma BegunKeepsHands(w: World, s: Step, k: ReqKey)
    requires s.Begin?
    ensures Sum(InHands(Take(w, s), k)) == Sum(InHands(w, k))
  {
    assert InHands(Take(w, s), k) == InHands(w, k) + [ZERO];
    SumAppend(InHands(w, k), ZERO);
    PlusZero(Sum(InHands(w, k)));
  }

  /** Whatever a step returns, the objects lose or the hands give up. */
  lemma StepReturns(w: World, s: Step, k: ReqKey)
    requires WellFormed(w)
    ensures Outstanding(Take(w, s), k) == Plus(Returns(w, s, k), Outstanding(w, k))
  {
    if s.Advance? && s.i < |w.tasks| {
      OneTask(w, s.i);
      ObjectsMoveFor(w, s.i, k);
      HandsMove(w, s.i, k);
      var added, taken := Added(w, w.tasks[s.i]), Minus(InHand(AdvanceTask(w, s.i).tasks[s.i]), InHand(w.tasks[s.i]));
      DifferenceOfKey(w.tasks[s.i].key, k, added, taken);
      MovedDifference(Sum(ObjectsOf(w, k)), Sum(InHands(w, k)),
                      OfKey(w.tasks[s.i].key, k, added), OfKey(w.tasks[s.i].key, k, taken));
    } else {
      assert ObjectsOf(Take(w, s), k) == ObjectsOf(w, k);
      if s.Begin? { BegunKeepsHands(w, s, k); } else { assert InHands(Take(w, s), k) == InHands(w, k); }
      PlusZero(Outstanding(w, k));
    }
  }

  lemma {:induction false} RunReturns(w: World, steps: seq<Step>, k: ReqKey)
    requires WellFormed(w)
    ensures Outstanding(Run(w, steps), k) == Plus(ReturnedIn(w, steps, k), Outstanding(w, k))
    decreases |steps|
  {
    if steps == [] {
      PlusZero(Outstanding(w, k));
    } else {
      var v := Take(w, steps[0]);
      StepReturns(w, steps[0], k);
      StepKeepsWellFormed(w, steps[0]);
      RunReturns(v, steps[1..], k);
      Regrouped(Returns(w, steps[0], k), ReturnedIn(v, steps[1..], k), Outstanding(w, k));
    }
  }

  lemma Regrouped(a: Load, b: Load, c: Load)
    ensures Plus(b, Plus(a, c)) == Plus(Plus(a, b), c)
  {
  }

  /**
   In every run, whatever the callers do: all changes returned for a key add up to what its workload
   objects hold, less what its releases have in hand.
   */
  lemma ReturnsLedger(steps: seq<Step>, k: ReqKey)
    ensures ReturnedIn(START, steps, k) == Minus(Sum(ObjectsOf(Run(START, steps), k)), Sum(InHands(Run(START, steps), k)))
  {
    RunReturns(START, steps, k);
    assert ObjectsOf(START, k) == [] && InHands(START, k) == [];
    PlusZero(ReturnedIn(START, steps, k));
  }

  // ---------------------------------------------------------------------------------------------
  // What is in hand
  // ---------------------------------------------------------------------------------------------

  predicate NonPositive(l: Load) {
    l.kv <= 0.0 && l.tokens <= 0.0
  }

  /** Releases take amounts out; none gives one back. */
  predicate HandsTake(w: World) {
    forall i | 0 <= i < |w.tasks| :: NonPositive(InHand(w.tasks[i]))
  }

  predicate NoneInHand(w: World, k: ReqKey) {
    forall i | 0 <= i < |w.tasks| && w.tasks[i].key == k :: InHand(w.tasks[i]) == ZERO
  }

  lemma AmountTakes(a: Action, l: Load)
    requires NonNegative(l)
    ensures NonPositive(Amount(a, l))
  {
  }

  lemma StepKeepsHands(w: World, s: Step)
    requires WellFormed(w) && HandsTake(w)
    ensures HandsTake(Take(w, s))
  {
    var v := Take(w, s);
    forall j | 0 <= j < |v.tasks| ensures NonPositive(InHand(v.tasks[j])) {
      if j < |w.tasks| { assert NonPositive(InHand(w.tasks[j])); }
      if s.Advance? && s.i < |w.tasks| {
        OthersStay(w, s.i, j);
        assert TaskOk(w, w.tasks[j]);
        if w.tasks[j].phase.Found? { AmountTakes(w.tasks[j].action, w.objects[w.tasks[j].phase.o].load); }
      }
    }
  }

  lemma {:induction false} RunKeepsHands(w: World, steps: seq<Step>)
    requires WellFormed(w) && HandsTake(w)
    ensures HandsTake(Run(w, steps))
    decreases |steps|
  {
    if steps != [] {
      StepKeepsHands(w, steps[0]);
      StepKeepsWellFormed(w, steps[0]);
      RunKeepsHands(Take(w, steps[0]), steps[1..]);
    }
  }

  predicate AllZero(xs: seq<Load>) {
    forall i | 0 <= i < |xs| :: xs[i] == ZERO
  }

  /** Amounts that are not positive add up to zero exactly if all are zero. */
  lemma SumOfTaken(xs: seq<Load>)
    requires forall i | 0 <= i < |xs| :: NonPositive(xs[i])
    ensures Sum(xs) == ZERO <==> AllZero(xs)
  {
    if AllZero(xs) {
      SumOfZeros(xs);
    } else {
      var zeros := seq(|xs|, i requires 0 <= i < |xs| => ZERO);
      SumOfZeros(zeros);
      SumDominates(xs, zeros);
    }
  }

  lemma HandsAreZero(w: World, k: ReqKey)
    ensures AllZero(InHands(w, k)) <==> NoneInHand(w, k)
  {
    if AllZero(InHands(w, k)) {
      forall i | 0 <= i < |w.tasks| && w.tasks[i].key == k ensures InHand(w.tasks[i]) == ZERO {
        assert InHands(w, k)[i] == ZERO;
      }
    }
  }

  lemma HandsAreEmptyIff(w: World, k: ReqKey)
    requires HandsTake(w)
    ensures Sum(InHands(w, k)) == ZERO <==> NoneInHand(w, k)
  {
    forall i | 0 <= i < |w.tasks| ensures NonPositive(InHands(w, k)[i]) {
      assert NonPositive(InHand(w.tasks[i]));
    }
    HandsAreZero(w, k);
    SumOfTaken(InHands(w, k));
  }

  // ---------------------------------------------------------------------------------------------
  // Returned changes and the surviving record
  // ---------------------------------------------------------------------------------------------

  /** The workload recorded for the key, zero if there is none. */
  function RecordOf(w: World, k: ReqKey): Load {
    if k in w.records && w.records[k] < |w.objects| then w.objects[w.records[k]].load else ZERO
  }

  /** An object of the key without a record holds nothing. */
  predicate NoOrphanOf(w: World, k: ReqKey) {
    forall o | 0 <= o < |w.objects| && w.objects[o].key == k :: Recorded(w, o) || w.objects[o].load == ZERO
  }

  lemma SumOfOne(xs: seq<Load>, o: nat)
    requires o < |xs| && forall i | 0 <= i < |xs| && i != o :: xs[i] == ZERO
    ensures Sum(xs) == xs[o]
  {
    var zeros := xs[o := ZERO];
    SumOfZeros(zeros);
    SumUpdate(zeros, o, xs[o]);
    assert zeros[o := xs[o]] == xs;
    FromZero(xs[o]);
  }

  lemma FromZero(l: Load)
    ensures Plus(ZERO, Minus(l, ZERO)) == l
  {
  }

  /** A key has at most one object, so its objects hold what that one holds. */
  lemma SumOfObject(w: World, o: nat)
    requires Unique(w) && o < |w.objects|
    ensures Sum(ObjectsOf(w, w.objects[o].key)) == w.objects[o].load
  {
    var k := w.objects[o].key;
    forall q | 0 <= q < |w.objects| && q != o ensures ObjectsOf(w, k)[q] == ZERO {
      if w.objects[q].key == k { OneObject(w, o, q); }
    }
    SumOfOne(ObjectsOf(w, k), o);
  }

  lemma NoObjects(w: World, k: ReqKey)
    requires forall o | 0 <= o < |w.objects| :: w.objects[o].key != k
    ensures Sum(ObjectsOf(w, k)) == ZERO
  {
    SumOfZeros(ObjectsOf(w, k));
  }

  lemma ObjectsAreTheRecordIff(w: World, k: ReqKey)
    requires Unique(w)
    ensures Sum(ObjectsOf(w, k)) == RecordOf(w, k) <==> NoOrphanOf(w, k)
  {
    if o :| 0 <= o < |w.objects| && w.objects[o].key == k {
      SumOfObject(w, o);
      forall q | 0 <= q < |w.objects| && w.objects[q].key == k ensures q == o {
        OneObject(w, o, q);
      }
      if k in w.records { OneObject(w, o, w.records[k]); }
    } else {
      NoObjects(w, k);
    }
  }

  lemma Solved(returned: Load, objects: Load, hands: Load)
    requires returned == Minus(objects, hands)
    ensures Plus(returned, hands) == objects
    ensures hands == ZERO <==> returned == objects
    ensures objects == ZERO ==> returned == Negative(hands) && (returned == ZERO <==> hands == ZERO)
  {
  }

  lemma ReturnedAndInHand(steps: seq<Step>, k: ReqKey)
    ensures var w := Run(START, steps);
            Plus(ReturnedIn(START, steps, k), Sum(InHands(w, k))) == Sum(ObjectsOf(w, k))
  {
    ReturnsLedger(steps, k);
    Solved(ReturnedIn(START, steps, k), Sum(ObjectsOf(Run(START, steps), k)), Sum(InHands(Run(START, steps), k)));
  }

  /**
   With one allocation per key and requests dropped at any time: what was returned and what is in hand is
   the surviving record if and only if no dropped object still holds anything.
   */
  lemma ReturnsAreTheRecordIff(steps: seq<Step>, k: ReqKey)
    requires AlwaysOnce(START, steps)
    ensures var w := Run(START, steps);
            Plus(ReturnedIn(START, steps, k), Sum(InHands(w, k))) == RecordOf(w, k) <==> NoOrphanOf(w, k)
  {
    RunKeepsUnique(START, steps);
    ReturnedAndInHand(steps, k);
    ObjectsAreTheRecordIff(Run(START, steps), k);
  }

  /**
   With one allocation per key and no drop: what was returned and what is in hand is the surviving record;
   the returned changes alone are, if and only if no release has anything in hand.
   */
  lemma ReturnsAreTheRecord(steps: seq<Step>, k: ReqKey)
    requires AlwaysOnce(START, steps) && NoDrops(steps)
    ensures var w := Run(START, steps);
            && Plus(ReturnedIn(START, steps, k), Sum(InHands(w, k))) == RecordOf(w, k)
            && (ReturnedIn(START, steps, k) == RecordOf(w, k) <==> NoneInHand(w, k))
  {
    var w := Run(START, steps);
    RunKeepsUnique(START, steps);
    RunKeepsNoOrphans(START, steps);
    RunKeepsHands(START, steps);
    assert forall o | 0 <= o < |w.objects| :: Recorded(w, o) || w.objects[o].load == ZERO;
    ObjectsAreTheRecordIff(w, k);
    ReturnsLedger(steps, k);
    Solved(ReturnedIn(START, steps, k), Sum(ObjectsOf(w, k)), Sum(InHands(w, k)));
    HandsAreEmptyIff(w, k);
  }

  /**
   Exactly once. With one allocation per request and role, and releases that begin at any time and at any
   endpoint: as soon as one release of each kind has returned a change, the request's record is gone, its
   workload is zero, and all changes returned for it add up to zero, except for what other releases have
   in hand. So they add up to zero if and only if no other release has anything in hand.
   */
  lemma BothReleasesClear(steps: seq<Step>, i: nat, j: nat)
    requires AlwaysOnce(START, steps)
    requires var w := Run(START, steps);
             && i < |w.tasks| && j < |w.tasks| && w.tasks[i].key == w.tasks[j].key
             && Released(w.tasks[i], ReleaseKv) && Released(w.tasks[j], ReleaseTokens)
    ensures var w := Run(START, steps);
            var k := w.tasks[i].key;
            && k !in w.records
            && (forall o | 0 <= o < |w.objects| :: w.objects[o].key == k ==> w.objects[o].load == ZERO)
            && ReturnedIn(START, steps, k) == Negative(Sum(InHands(w, k)))
            && (ReturnedIn(START, steps, k) == ZERO <==> NoneInHand(w, k))
  {
    var w := Run(START, steps);
    var k := w.tasks[i].key;
    RunKeepsUnique(START, steps);
    RunKeepsHands(START, steps);
    PairIsClear(w, i, j);
    SumOfZeros(ObjectsOf(w, k));
    ReturnsLedger(steps, k);
    Solved(ReturnedIn(START, steps, k), Sum(ObjectsOf(w, k)), Sum(InHands(w, k)));
    HandsAreEmptyIff(w, k);
  }

  // ---------------------------------------------------------------------------------------------
  // Two releases of one kind
  // ---------------------------------------------------------------------------------------------

  const PREFILL := ReqKey("r", Prefill)
  const DEMAND := Demand(Prefill, 0)

  const ALLOCATED := [Begin(PREFILL, HOME, Allocate, 0), Advance(0), Advance(0)]
  const BEGUN := [Begin(PREFILL, HOME, ReleaseKv, 0), Begin(PREFILL, HOME, ReleaseKv, 0), Begin(PREFILL, HOME, ReleaseTokens, 0)]
  const FINDING := [Advance(1), Advance(2), Advance(3)]
  const KV_TWICE := [Advance(1), Advance(2), Advance(2)]
  const TOKENS_LAST := [Advance(3), Advance(3), Advance(3)]

  const CREATOR := Task(PREFILL, HOME, Allocate, DEMAND, Finished(Some(0)))
  const KV := Task(PREFILL, HOME, ReleaseKv, DEMAND, Started)
  const TOKENS := Task(PREFILL, HOME, ReleaseTokens, DEMAND, Started)
  const TAKEN := KV.(phase := Zeroed(0, Load(-DEMAND.kv, 0.0)))

  function Holding(l: Load): seq<Object> {
    [Object(PREFILL, HOME, l)]
  }

  lemma Allocated()
    ensures var w := Run(START, ALLOCATED);
            w.records == map[PREFILL := 0] && w.objects == Holding(DEMAND) && w.tasks == [CREATOR]
  {
    RunOf3(START, Begin(PREFILL, HOME, Allocate, 0), Advance(0), Advance(0));
    var a := Take(START, Begin(PREFILL, HOME, Allocate, 0));
    assert a.tasks == [CREATOR.(phase := Started)];
    var b := Take(a, Advance(0));
    assert b.tasks == [CREATOR.(phase := Returned(0, Shared(0)))];
  }

  lemma BothFind(w: World)
    requires w.records == map[PREFILL := 0] && w.objects == Holding(DEMAND) && w.tasks == [CREATOR]
    ensures var v := Run(Run(w, BEGUN), FINDING);
            && v.records == w.records && v.objects == w.objects
            && v.tasks == [CREATOR, KV.(phase := Found(0)), KV.(phase := Found(0)), TOKENS.(phase := Found(0))]
  {
    RunOf3(w, BEGUN[0], BEGUN[1], BEGUN[2]);
    var b := Run(w, BEGUN);
    assert b.tasks == [CREATOR, KV, KV, TOKENS];
    RunOf3(b, Advance(1), Advance(2), Advance(3));
    var c := Take(b, Advance(1));
    assert c.tasks == [CREATOR, KV.(phase := Found(0)), KV, TOKENS];
    var d := Take(c, Advance(2));
    assert d.tasks == [CREATOR, KV.(phase := Found(0)), KV.(phase := Found(0)), TOKENS];
  }

  /** The first empties the field and waits; the second finds nothing there and returns at once. */
  lemma SecondReturnsFirst(w: World)
    requires w.records == map[PREFILL := 0] && w.objects == Holding(DEMAND)
    requires w.tasks == [CREATOR, KV.(phase := Found(0)), KV.(phase := Found(0)), TOKENS.(phase := Found(0))]
    ensures var v := Run(w, KV_TWICE);
            && v.records == w.records && v.objects == Holding(Load(0.0, DEMAND.tokens))
            && v.tasks == [CREATOR, TAKEN, KV.(phase := Returned(0, Fixed(ZERO))), TOKENS.(phase := Found(0))]
  {
    RunOf3(w, Advance(1), Advance(2), Advance(2));
    var b := Take(w, Advance(1));
    assert b.tasks == [CREATOR, TAKEN, KV.(phase := Found(0)), TOKENS.(phase := Found(0))];
    assert b.objects == Holding(Load(0.0, DEMAND.tokens));
    var c := Take(b, Advance(2));
    assert c.tasks == [CREATOR, TAKEN, KV.(phase := Zeroed(0, ZERO)), TOKENS.(phase := Found(0))];
    assert c.objects == b.objects;
  }

  lemma TokensDelete(w: World)
    requires w.records == map[PREFILL := 0] && w.objects == Holding(Load(0.0, DEMAND.tokens))
    requires w.tasks == [CREATOR, TAKEN, KV.(phase := Returned(0, Fixed(ZERO))), TOKENS.(phase := Found(0))]
    ensures var v := Run(w, TOKENS_LAST);
            |v.tasks| == 4 && v.tasks[1] == TAKEN && v.tasks[2] == w.tasks[2] && Released(v.tasks[3], ReleaseTokens) && v.tasks[3].key == PREFILL
  {
    RunOf3(w, Advance(3), Advance(3), Advance(3));
    var b := Take(w, Advance(3));
    assert b.objects == Holding(ZERO);
    assert b.tasks[3].phase == Zeroed(0, Load(0.0, -DEMAND.tokens));
    var c := Take(b, Advance(3));
    assert c.tasks[3].phase == Deleting(0, Load(0.0, -DEMAND.tokens));
  }

  lemma {:induction false} NoMoreCreators(w: World, steps: seq<Step>)
    requires forall s <- steps :: s.Begin? ==> !Creates(s.action)
    ensures AlwaysOnce(w, steps)
    decreases |steps|
  {
    if steps != [] {
      assert steps[0] in steps;
      NoMoreCreators(Take(w, steps[0]), steps[1..]);
    }
  }

  const THREE_RELEASES := ALLOCATED + BEGUN + FINDING + KV_TWICE + TOKENS_LAST

  lemma ThreeReleasesEnd()
    ensures AlwaysOnce(START, THREE_RELEASES)
    ensures var w := Run(START, THREE_RELEASES);
            && |w.tasks| == 4 && w.tasks[1] == TAKEN && w.tasks[2] == KV.(phase := Returned(0, Fixed(ZERO)))
            && Released(w.tasks[3], ReleaseTokens) && w.tasks[3].key == PREFILL
  {
    NoMoreCreators(Take(START, THREE_RELEASES[0]), THREE_RELEASES[1..]);
    RunSplits(START, ALLOCATED + BEGUN + FINDING + KV_TWICE, TOKENS_LAST);
    RunSplits(START, ALLOCATED + BEGUN + FINDING, KV_TWICE);
    RunSplits(START, ALLOCATED + BEGUN, FINDING);
    RunSplits(START, ALLOCATED, BEGUN);
    Allocated();
    BothFind(Run(START, ALLOCATED));
    SecondReturnsFirst(Run(Run(Run(START, ALLOCATED), BEGUN), FINDING));
    TokensDelete(Run(Run(Run(Run(START, ALLOCATED), BEGUN), FINDING), KV_TWICE));
  }

  /**
   Two cache releases and a token release: one of each kind has returned and the record is gone while the
   other still has the whole amount in hand, so the returned changes do not add up to zero.
   */
  lemma ThreeReleasesLag()
    ensures var w := Run(START, THREE_RELEASES);
            && |w.tasks| == 4 && Released(w.tasks[2], ReleaseKv) && Released(w.tasks[3], ReleaseTokens)
            && PREFILL !in w.records && ReturnedIn(START, THREE_RELEASES, PREFILL) != ZERO
  {
    ThreeReleasesEnd();
    BothReleasesClear(THREE_RELEASES, 2, 3);
    assert InHand(Run(START, THREE_RELEASES).tasks[1]) != ZERO;
  }
}
