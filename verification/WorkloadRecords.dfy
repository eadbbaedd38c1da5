/**
 When the loads of the endpoints are the surviving records of their requests: what dropping a request
 leaves behind, and what discipline of the callers suffices.
 */
module WorkloadRecords {
  import opened Prelude
  import opened CoordinatorPools
  import opened WorkloadRuns
  import opened WorkloadBalance

  predicate Recorded(w: World, o: nat)
    requires o < |w.objects|
  {
    w.objects[o].key in w.records && w.records[w.objects[o].key] == o
  }

  /** The loads of the records that survive, per endpoint. */
  function RecordsAt(w: World, p: Place): seq<Load> {
    seq(|w.objects|, o requires 0 <= o < |w.objects| =>
      if Recorded(w, o) then At(w.objects[o].place, p, w.objects[o].load) else ZERO)
  }

  /** Applied loads and changes on their way add up to the surviving records. */
  predicate AccountsFor(w: World, p: Place) {
    Plus(LoadAt(w, p), Sum(PendingAt(w, p))) == Sum(RecordsAt(w, p))
  }

  /** An object no record points to any more holds nothing. */
  predicate NoOrphans(w: World) {
    forall o | 0 <= o < |w.objects| :: Recorded(w, o) || w.objects[o].load == ZERO
  }

  // ---------------------------------------------------------------------------------------------
  // Accounting in one state
  // ---------------------------------------------------------------------------------------------

  predicate AtMost(a: Load, b: Load) {
    a.kv <= b.kv && a.tokens <= b.tokens
  }

  /** Smaller loads with the same sum are the same loads. */
  lemma {:induction false} SumDominates(xs: seq<Load>, ys: seq<Load>)
    requires |xs| == |ys| && forall i | 0 <= i < |xs| :: AtMost(xs[i], ys[i])
    ensures AtMost(Sum(xs), Sum(ys)) && (Sum(xs) == Sum(ys) ==> xs == ys)
    decreases |xs|
  {
    if xs != [] {
      SumDominates(xs[1..], ys[1..]);
      assert AtMost(xs[0], ys[0]);
      assert xs == [xs[0]] + xs[1..] && ys == [ys[0]] + ys[1..];
    }
  }

  lemma RecordsAreAtMost(w: World, p: Place)
    requires WellFormed(w)
    ensures |RecordsAt(w, p)| == |ObjectsAt(w, p)|
    ensures forall o | 0 <= o < |w.objects| :: AtMost(RecordsAt(w, p)[o], ObjectsAt(w, p)[o])
  {
    forall o | 0 <= o < |w.objects| ensures AtMost(RecordsAt(w, p)[o], ObjectsAt(w, p)[o]) {
      assert NonNegative(w.objects[o].load);
    }
  }

  lemma BalanceMeans(w: World, p: Place)
    requires Imbalance(w, p) == ZERO
    ensures Plus(LoadAt(w, p), Sum(PendingAt(w, p))) == Sum(ObjectsAt(w, p))
  {
    ZeroDifference(Plus(LoadAt(w, p), Sum(PendingAt(w, p))), Sum(ObjectsAt(w, p)));
  }

  lemma ZeroDifference(a: Load, b: Load)
    requires Minus(a, b) == ZERO
    ensures a == b
  {
  }

  /** In a balanced state the loads are the records at every endpoint if and only if there is no orphan. */
  lemma AccountsIffNoOrphans(w: World)
    requires WellFormed(w) && Balanced(w)
    ensures (forall p: Place :: AccountsFor(w, p)) <==> NoOrphans(w)
  {
    if NoOrphans(w) {
      forall p: Place ensures AccountsFor(w, p) {
        assert RecordsAt(w, p) == ObjectsAt(w, p) by {
          forall o | 0 <= o < |w.objects| ensures RecordsAt(w, p)[o] == ObjectsAt(w, p)[o] {
            assert Recorded(w, o) || w.objects[o].load == ZERO;
          }
        }
        BalanceMeans(w, p);
      }
    }
    if forall p: Place :: AccountsFor(w, p) {
      forall o | 0 <= o < |w.objects| ensures Recorded(w, o) || w.objects[o].load == ZERO {
        var p := w.objects[o].place;
        assert AccountsFor(w, p);
        BalanceMeans(w, p);
        RecordsAreAtMost(w, p);
        SumDominates(RecordsAt(w, p), ObjectsAt(w, p));
        assert RecordsAt(w, p)[o] == ObjectsAt(w, p)[o];
      }
    }
  }

  lemma NothingPending(w: World, p: Place)
    requires AllOver(w)
    ensures Sum(PendingAt(w, p)) == ZERO
  {
    forall i | 0 <= i < |w.tasks| ensures PendingAt(w, p)[i] == ZERO {
      assert Over(w.tasks[i]);
    }
    SumOfZeros(PendingAt(w, p));
  }

  // ---------------------------------------------------------------------------------------------
  // Strays
  // ---------------------------------------------------------------------------------------------

  function Field(a: Action, l: Load): real {
    if a == ReleaseKv then l.kv else l.tokens
  }

  /** A release of this kind has found the object and not emptied it yet. */
  predicate Held(w: World, o: nat, a: Action) {
    exists i :: 0 <= i < |w.tasks| && w.tasks[i].phase == Found(o) && w.tasks[i].action == a
  }

  /** An unrecorded object still has something in the field, and no release is about to empty it. */
  predicate Stray(w: World, o: nat, a: Action) {
    o < |w.objects| && !Recorded(w, o) && Field(a, w.objects[o].load) != 0.0 && !Held(w, o, a)
  }

  ghost predicate NoStrays(w: World) {
    forall o: nat, a: Action :: !Creates(a) ==> !Stray(w, o, a)
  }

  /** Every field of the request's records is empty or about to be emptied by a release that holds it. */
  ghost predicate CleanDrop(w: World, request: string)
    requires WellFormed(w)
  {
    forall k, a: Action :: k in w.records && k.request == request && !Creates(a) ==>
      Field(a, w.objects[w.records[k]].load) == 0.0 || Held(w, w.records[k], a)
  }

  lemma HeldAfter(w: World, i: nat, o: nat, a: Action)
    requires Unique(w) && i < |w.tasks| && o < |w.objects| && !Creates(a)
    ensures Held(w, o, a) ==> Held(AdvanceTask(w, i), o, a) || Field(a, AdvanceTask(w, i).objects[o].load) == 0.0
    ensures Held(AdvanceTask(w, i), o, a) ==> Held(w, o, a) || Recorded(w, o)
  {
    var v := AdvanceTask(w, i);
    OthersStay(w, i, i);
    StepExtends(w, Advance(i));
    if Held(w, o, a) {
      var j :| 0 <= j < |w.tasks| && w.tasks[j].phase == Found(o) && w.tasks[j].action == a;
      OthersStay(w, i, j);
      if j != i { assert v.tasks[j].phase == Found(o); }
    }
    if Held(v, o, a) {
      var j :| 0 <= j < |v.tasks| && v.tasks[j].phase == Found(o) && v.tasks[j].action == a;
      OthersStay(w, i, j);
      if j == i { FoundIsRecorded(w, i, o); }
    }
  }

  lemma FoundIsRecorded(w: World, i: nat, o: nat)
    requires WellFormed(w) && i < |w.tasks| && o < |w.objects|
    requires AdvanceTask(w, i).tasks[i].phase == Found(o)
    ensures w.tasks[i].phase == Found(o) || Recorded(w, o)
  {
    assert TaskOk(w, w.tasks[i]);
  }

  /** A record that goes while its task advances is one whose object is empty. */
  lemma RecordedAfter(w: World, i: nat, o: nat)
    requires Unique(w) && i < |w.tasks| && o < |w.objects|
    ensures Recorded(AdvanceTask(w, i), o) ==> Recorded(w, o)
    ensures Recorded(w, o) ==> Recorded(AdvanceTask(w, i), o) || w.objects[o].load == ZERO
  {
    var v := AdvanceTask(w, i);
    var k := w.objects[o].key;
    StepExtends(w, Advance(i));
    assert v.objects[o].key == k;
    RecordsAfter(w, i, k);
    assert TaskOk(w, w.tasks[i]);
    if Recorded(w, o) && !Recorded(v, o) {
      RecordLeaves(w, i, k);
      OneObject(w, o, w.tasks[i].phase.o);
    }
  }

  lemma RecordLeaves(w: World, i: nat, k: ReqKey)
    requires Unique(w) && i < |w.tasks| && k in w.records
    requires k !in AdvanceTask(w, i).records || AdvanceTask(w, i).records[k] != w.records[k]
    ensures w.tasks[i].phase.Deleting? && w.tasks[i].key == k
  {
    RecordsAfter(w, i, k);
    if w.tasks[i].phase.Zeroed? { StoreIsIdle(w, i); }
    if Creates(w.tasks[i].action) && ObjectOf(w.tasks[i]) == None && k == w.tasks[i].key {
      NoObjectYet(w, i, w.records[k]);
    }
  }

  lemma NewIsRecorded(w: World, i: nat, o: nat)
    requires i < |w.tasks| && |w.objects| <= o < |AdvanceTask(w, i).objects|
    ensures Recorded(AdvanceTask(w, i), o)
  {
  }

  lemma FieldShrinks(w: World, s: Step, o: nat, a: Action)
    requires o < |w.objects|
    ensures o < |Take(w, s).objects|
    ensures Field(a, w.objects[o].load) == 0.0 ==> Field(a, Take(w, s).objects[o].load) == 0.0
  {
    StepExtends(w, s);
  }

  lemma AdvanceKeepsStrayless(w: World, i: nat, o: nat, a: Action)
    requires Unique(w) && NoStrays(w) && i < |w.tasks| && !Creates(a)
    ensures !Stray(AdvanceTask(w, i), o, a)
  {
    var v := AdvanceTask(w, i);
    StepExtends(w, Advance(i));
    if o < |w.objects| {
      assert !Stray(w, o, a);
      HeldAfter(w, i, o, a);
      RecordedAfter(w, i, o);
      FieldShrinks(w, Advance(i), o, a);
    } else if o < |v.objects| {
      NewIsRecorded(w, i, o);
    }
  }

  lemma BeginKeepsHeld(w: World, s: Step, o: nat, a: Action)
    requires s.Begin?
    ensures Held(Take(w, s), o, a) <==> Held(w, o, a)
  {
    var v := Take(w, s);
    assert forall j | 0 <= j < |w.tasks| :: v.tasks[j] == w.tasks[j];
    assert v.tasks[|w.tasks|].phase == Started;
    if Held(v, o, a) {
      var j :| 0 <= j < |v.tasks| && v.tasks[j].phase == Found(o) && v.tasks[j].action == a;
      assert w.tasks[j].phase == Found(o);
    }
  }

  /** A dropped request leaves a stray if and only if the drop is not clean. */
  lemma DropStep(w: World, request: string)
    requires WellFormed(w) && NoStrays(w)
    ensures NoStrays(Take(w, Drop(request))) <==> CleanDrop(w, request)
  {
    var v := Take(w, Drop(request));
    assert forall o: nat, a: Action :: Held(v, o, a) == Held(w, o, a);
    if CleanDrop(w, request) {
      forall o: nat, a: Action | !Creates(a) ensures !Stray(v, o, a) {
        assert !Stray(w, o, a);
        if o < |w.objects| && Recorded(w, o) && !Recorded(v, o) {
          assert w.objects[o].key in w.records && w.objects[o].key.request == request;
        }
      }
    }
    if NoStrays(v) {
      forall k, a: Action | k in w.records && k.request == request && !Creates(a)
        ensures Field(a, w.objects[w.records[k]].load) == 0.0 || Held(w, w.records[k], a)
      {
        assert !Stray(v, w.records[k], a);
        assert !Recorded(v, w.records[k]);
      }
    }
  }

  ghost predicate Clean(w: World, s: Step)
    requires WellFormed(w)
  {
    s.Drop? ==> CleanDrop(w, s.request)
  }

  lemma StrayStep(w: World, s: Step)
    requires Unique(w) && Once(w, s) && NoStrays(w)
    ensures NoStrays(Take(w, s)) <==> Clean(w, s)
  {
    match s
    case Begin(_, _, _, _) =>
      forall o: nat, a: Action | !Creates(a) ensures !Stray(Take(w, s), o, a) {
        BeginKeepsHeld(w, s, o, a);
        assert !Stray(w, o, a);
      }
    case Drop(request) => DropStep(w, request);
    case Advance(i) =>
      if i < |w.tasks| {
        forall o: nat, a: Action | !Creates(a) ensures !Stray(Take(w, s), o, a) {
          AdvanceKeepsStrayless(w, i, o, a);
        }
      }
  }

  /** Once there is a stray, nothing ever empties it. */
  lemma StrayStays(w: World, s: Step, o: nat, a: Action)
    requires Unique(w) && Once(w, s) && Stray(w, o, a) && !Creates(a)
    ensures Stray(Take(w, s), o, a)
  {
    match s
    case Begin(_, _, _, _) => BeginKeepsHeld(w, s, o, a);
    case Drop(_) => assert Held(Take(w, s), o, a) == Held(w, o, a);
    case Advance(i) =>
      if i < |w.tasks| {
        HeldAfter(w, i, o, a);
        RecordedAfter(w, i, o);
        StrayFieldStays(w, i, o, a);
      }
  }

  lemma StrayFieldStays(w: World, i: nat, o: nat, a: Action)
    requires WellFormed(w) && i < |w.tasks| && Stray(w, o, a) && !Creates(a)
    ensures o < |AdvanceTask(w, i).objects| && Field(a, AdvanceTask(w, i).objects[o].load) == Field(a, w.objects[o].load)
  {
    assert TaskOk(w, w.tasks[i]);
    if w.tasks[i].phase == Found(o) {
      assert w.tasks[i].action != a;
    } else {
      ObjectKept(w, i, o);
    }
  }

  // ---------------------------------------------------------------------------------------------
  // Accounting over runs
  // ---------------------------------------------------------------------------------------------

  /** Every drop of the run is clean at its moment. */
  ghost predicate CleanDrops(w: World, steps: seq<Step>)
    requires WellFormed(w)
    decreases |steps|
  {
    steps == [] || (Clean(w, steps[0]) && (StepKeepsWellFormed(w, steps[0]); CleanDrops(Take(w, steps[0]), steps[1..])))
  }

  lemma {:induction false} StraysStay(w: World, steps: seq<Step>, o: nat, a: Action)
    requires Unique(w) && AlwaysOnce(w, steps) && Stray(w, o, a) && !Creates(a)
    ensures Stray(Run(w, steps), o, a)
    decreases |steps|
  {
    if steps != [] {
      StrayStays(w, steps[0], o, a);
      StepKeepsUnique(w, steps[0]);
      StraysStay(Take(w, steps[0]), steps[1..], o, a);
    }
  }

  lemma {:induction false} StraysIffDirty(w: World, steps: seq<Step>)
    requires Unique(w) && AlwaysOnce(w, steps) && NoStrays(w)
    ensures NoStrays(Run(w, steps)) <==> CleanDrops(w, steps)
    decreases |steps|
  {
    if steps != [] {
      var v := Take(w, steps[0]);
      StrayStep(w, steps[0]);
      StepKeepsUnique(w, steps[0]);
      if NoStrays(v) {
        StraysIffDirty(v, steps[1..]);
      } else {
        var o: nat, a: Action :| !Creates(a) && Stray(v, o, a);
        StraysStay(v, steps[1..], o, a);
      }
    }
  }

  /** With no task running, an object is an orphan exactly if it is a stray. */
  lemma StraysAreOrphans(w: World)
    requires AllOver(w)
    ensures NoStrays(w) <==> NoOrphans(w)
  {
    assert forall i | 0 <= i < |w.tasks| :: Over(w.tasks[i]);
    assert forall o: nat, a: Action :: !Held(w, o, a);
    if NoStrays(w) {
      forall o | 0 <= o < |w.objects| ensures Recorded(w, o) || w.objects[o].load == ZERO {
        assert !Stray(w, o, ReleaseKv) && !Stray(w, o, ReleaseTokens);
      }
    }
  }

  /**
   Dropped requests. Over every run with one allocation per key and no slip, once no task is running:
   the loads of all endpoints are their surviving records if and only if every field of every dropped
   record was empty at the time, or held by a release that was about to empty it.
   */
  lemma DropsLeakIff(steps: seq<Step>)
    requires AlwaysOnce(START, steps) && AlwaysHarmless(START, steps) && AllOver(Run(START, steps))
    ensures WellFormed(START)
    ensures (forall p: Place :: AccountsFor(Run(START, steps), p)) <==> CleanDrops(START, steps)
  {
    StartIsBalanced();
    HarmlessEndsBalanced(START, steps);
    RunKeepsUnique(START, steps);
    assert NoStrays(START);
    StraysIffDirty(START, steps);
    StraysAreOrphans(Run(START, steps));
    AccountsIffNoOrphans(Run(START, steps));
  }

  predicate NoDrops(steps: seq<Step>) {
    forall s <- steps :: !s.Drop?
  }

  lemma StepKeepsNoOrphans(w: World, s: Step)
    requires Unique(w) && NoOrphans(w) && !s.Drop?
    ensures NoOrphans(Take(w, s))
  {
    var v := Take(w, s);
    StepExtends(w, s);
    forall o | 0 <= o < |v.objects| ensures Recorded(v, o) || v.objects[o].load == ZERO {
      if o < |w.objects| { assert Recorded(w, o) || w.objects[o].load == ZERO; }
      if s.Advance? && s.i < |w.tasks| {
        if o < |w.objects| { RecordedAfter(w, s.i, o); } else { NewIsRecorded(w, s.i, o); }
      }
    }
  }

  lemma {:induction false} RunKeepsNoOrphans(w: World, steps: seq<Step>)
    requires Unique(w) && NoOrphans(w) && AlwaysOnce(w, steps) && NoDrops(steps)
    ensures NoOrphans(Run(w, steps))
    decreases |steps|
  {
    if steps != [] {
      assert steps[0] in steps;
      StepKeepsUnique(w, steps[0]);
      StepKeepsNoOrphans(w, steps[0]);
      RunKeepsNoOrphans(Take(w, steps[0]), steps[1..]);
    }
  }

  /**
   While no request is dropped, in every state of every run with one allocation per key and no slip: the
   load of every endpoint and the changes on their way to it add up to the surviving records of its
   requests; with no task running the load is exactly their sum.
   */
  lemma LoadIsTheRecords(steps: seq<Step>, p: Place)
    requires AlwaysOnce(START, steps) && AlwaysHarmless(START, steps) && NoDrops(steps)
    ensures AccountsFor(Run(START, steps), p)
    ensures AllOver(Run(START, steps)) ==> LoadAt(Run(START, steps), p) == Sum(RecordsAt(Run(START, steps), p))
  {
    var w := Run(START, steps);
    StartIsBalanced();
    HarmlessEndsBalanced(START, steps);
    RunKeepsUnique(START, steps);
    RunKeepsNoOrphans(START, steps);
    AccountsIffNoOrphans(w);
    if AllOver(w) {
      NothingPending(w, p);
      PlusZero(LoadAt(w, p));
    }
  }

  // ---------------------------------------------------------------------------------------------
  // A discipline that suffices
  // ---------------------------------------------------------------------------------------------

  /**
   A request allocates once per role, when no release for it is under way; it releases only after its
   allocation has been applied, at the endpoint it was allocated.
   */
  predicate Proper(w: World, s: Step) {
    s.Begin? ==>
      && Once(w, s)
      && (forall i | 0 <= i < |w.tasks| :: w.tasks[i].key == s.key ==> Over(w.tasks[i]) || Creates(s.action) == Creates(w.tasks[i].action))
      && (!Creates(s.action) ==> forall o | 0 <= o < |w.objects| :: w.objects[o].key == s.key ==> w.objects[o].place == s.place)
  }

  predicate AlwaysProper(w: World, steps: seq<Step>)
    decreases |steps|
  {
    steps == [] || (Proper(w, steps[0]) && AlwaysProper(Take(w, steps[0]), steps[1..]))
  }

  /** The release waits for no allocation, and its object is at its place. */
  predicate InTurn(w: World, t: Task) {
    !Creates(t.action) && !Over(t) ==>
      && (forall j | 0 <= j < |w.tasks| :: w.tasks[j].key == t.key && Creates(w.tasks[j].action) ==> Over(w.tasks[j]))
      && (forall o | 0 <= o < |w.objects| :: w.objects[o].key == t.key ==> w.objects[o].place == t.place)
  }

  ghost predicate Disciplined(w: World) {
    Unique(w) && forall i | 0 <= i < |w.tasks| :: InTurn(w, w.tasks[i])
  }

  lemma DisciplinedIsHarmless(w: World, s: Step)
    requires Disciplined(w)
    ensures Harmless(w, s)
  {
    if s.Advance? && s.i < |w.tasks| {
      var t := w.tasks[s.i];
      assert TaskOk(w, t) && InTurn(w, t);
      if t.phase.Charged? && t.key in w.records { NoObjectYet(w, s.i, w.records[t.key]); }
      if t.phase.Found? && Waiting(w, t.phase.o) {
        var j :| 0 <= j < |w.tasks| && w.tasks[j].phase == Returned(t.phase.o, Shared(t.phase.o));
        assert TaskOk(w, w.tasks[j]);
      }
    }
  }

  lemma BeginKeepsTurn(w: World, s: Step, i: nat)
    requires Disciplined(w) && s.Begin? && Proper(w, s) && i < |Take(w, s).tasks|
    ensures InTurn(Take(w, s), Take(w, s).tasks[i])
  {
    if i < |w.tasks| { assert InTurn(w, w.tasks[i]); }
  }

  lemma AdvanceKeepsTurn(w: World, i: nat, j: nat)
    requires Disciplined(w) && i < |w.tasks| && j < |w.tasks|
    ensures InTurn(AdvanceTask(w, i), AdvanceTask(w, i).tasks[j])
  {
    var v := AdvanceTask(w, i);
    var t := v.tasks[j];
    OthersStay(w, i, j);
    StepExtends(w, Advance(i));
    assert InTurn(w, w.tasks[j]) && TaskOk(w, w.tasks[i]);
    if !Creates(t.action) && !Over(t) {
      forall k | 0 <= k < |v.tasks| && v.tasks[k].key == t.key && Creates(v.tasks[k].action) ensures Over(v.tasks[k]) {
        OthersStay(w, i, k);
        assert Over(w.tasks[k]);
      }
      forall o | 0 <= o < |v.objects| && v.objects[o].key == t.key ensures v.objects[o].place == t.place {
        if o >= |w.objects| { MakerIsNotOver(w, i, o); }
      }
    }
  }

  lemma MakerIsNotOver(w: World, i: nat, o: nat)
    requires WellFormed(w) && i < |w.tasks| && |w.objects| <= o < |AdvanceTask(w, i).objects|
    ensures Creates(w.tasks[i].action) && !Over(w.tasks[i]) && AdvanceTask(w, i).objects[o].key == w.tasks[i].key
  {
    assert TaskOk(w, w.tasks[i]);
  }

  lemma StepKeepsDisciplined(w: World, s: Step)
    requires Disciplined(w) && Proper(w, s)
    ensures Disciplined(Take(w, s))
  {
    StepKeepsUnique(w, s);
    match s
    case Begin(_, _, _, _) =>
      forall i | 0 <= i < |Take(w, s).tasks| ensures InTurn(Take(w, s), Take(w, s).tasks[i]) {
        BeginKeepsTurn(w, s, i);
      }
    case Drop(_) =>
      forall i | 0 <= i < |w.tasks| ensures InTurn(Take(w, s), w.tasks[i]) {
        assert InTurn(w, w.tasks[i]);
      }
    case Advance(i) =>
      if i < |w.tasks| {
        OthersStay(w, i, i);
        forall j | 0 <= j < |w.tasks| ensures InTurn(Take(w, s), Take(w, s).tasks[j]) {
          AdvanceKeepsTurn(w, i, j);
        }
      }
  }

  /** A disciplined run never slips. */
  lemma {:induction false} DisciplineSuffices(w: World, steps: seq<Step>)
    requires Disciplined(w) && AlwaysProper(w, steps)
    ensures AlwaysHarmless(w, steps) && AlwaysOnce(w, steps)
    decreases |steps|
  {
    if steps != [] {
      DisciplinedIsHarmless(w, steps[0]);
      StepKeepsDisciplined(w, steps[0]);
      DisciplineSuffices(Take(w, steps[0]), steps[1..]);
    }
  }

  // ---------------------------------------------------------------------------------------------
  // Runs that slip
  // ---------------------------------------------------------------------------------------------

  /** Once no task is running, the load of an endpoint is off by exactly the slips of the run. */
  lemma FinalLoad(steps: seq<Step>, p: Place)
    requires AllOver(Run(START, steps))
    ensures LoadAt(Run(START, steps), p) == Plus(Sum(ObjectsAt(Run(START, steps), p)), TotalSlip(START, steps, p))
  {
    var w := Run(START, steps);
    Ledger(steps, p);
    NothingPending(w, p);
    PlusZero(LoadAt(w, p));
    Rearranged(LoadAt(w, p), Sum(ObjectsAt(w, p)));
  }

  lemma Rearranged(a: Load, b: Load)
    ensures a == Plus(b, Minus(a, b))
  {
  }

  /** A release that empties an object its allocation still hands out takes the amount off twice. */
  lemma EarlyReleaseSlips(w: World, i: nat)
    requires WellFormed(w) && i < |w.tasks| && w.tasks[i].phase.Found?
    requires var o := w.tasks[i].phase.o; o < |w.objects| && w.objects[o].place == w.tasks[i].place && Waiting(w, o)
    ensures Slip(w, Advance(i), w.tasks[i].place) == Amount(w.tasks[i].action, w.objects[w.tasks[i].phase.o].load)
  {
    Twice(Amount(w.tasks[i].action, w.objects[w.tasks[i].phase.o].load));
  }

  const KEY := ReqKey("r", Decode)
  const HOME := Place(0, 0)

  /** The allocation of five tokens is recorded; a release finds and empties the object before it is applied. */
  const EARLY := [Begin(KEY, HOME, Allocate, 5), Advance(0), Begin(KEY, HOME, ReleaseTokens, 0)]
  const EMPTYING := [Advance(1), Advance(1), Advance(1)]
  const APPLYING := [Advance(1), Advance(0), Advance(1)]

  const WAITING := Task(KEY, HOME, Allocate, Load(0.0, 5.0), Returned(0, Shared(0)))
  const RELEASE := Task(KEY, HOME, ReleaseTokens, ZERO, Started)
  const MIDWAY := World(map[KEY := 0], [Object(KEY, HOME, Load(0.0, 5.0))], [WAITING, RELEASE], map[])
  const EMPTY := World(map[KEY := 0], [Object(KEY, HOME, ZERO)],
                       [WAITING, RELEASE.(phase := Deleting(0, Load(0.0, -5.0)))], map[])
  const RETURNED := RELEASE.(phase := Returned(0, Fixed(Load(0.0, -5.0))))
  const DELETED := World(map[], [Object(KEY, HOME, ZERO)], [WAITING, RETURNED], map[])

  lemma RunOf3(w: World, a: Step, b: Step, c: Step)
    ensures Run(w, [a, b, c]) == Take(Take(Take(w, a), b), c)
  {
    assert [a, b, c][1..] == [b, c] && [b, c][1..] == [c] && [c][1..] == [];
    assert Run(w, [a, b, c]) == Run(Take(w, a), [b, c]);
    assert Run(Take(w, a), [b, c]) == Run(Take(Take(w, a), b), [c]);
    assert Run(Take(Take(w, a), b), [c]) == Run(Take(Take(Take(w, a), b), c), []);
  }

  lemma EarlyStart()
    ensures Run(START, EARLY) == MIDWAY
  {
    RunOf3(START, Begin(KEY, HOME, Allocate, 5), Advance(0), Begin(KEY, HOME, ReleaseTokens, 0));
    var w := Take(START, Begin(KEY, HOME, Allocate, 5));
    assert w.tasks == [WAITING.(phase := Started)];
    assert Take(w, Advance(0)).tasks == [WAITING];
  }

  lemma EarlyEmpty()
    ensures Run(MIDWAY, EMPTYING) == EMPTY
  {
    RunOf3(MIDWAY, Advance(1), Advance(1), Advance(1));
    var a := Take(MIDWAY, Advance(1));
    assert a.tasks == [WAITING, RELEASE.(phase := Found(0))];
    var b := Take(a, Advance(1));
    assert b.tasks == [WAITING, RELEASE.(phase := Zeroed(0, Load(0.0, -5.0)))];
    assert b.objects == [Object(KEY, HOME, ZERO)];
  }

  lemma EarlyDelete()
    ensures Take(EMPTY, Advance(1)) == DELETED
  {
  }

  /** Applying the change of a task that is one of two. */
  lemma OneApplies(w: World, i: nat, l: Load)
    requires |w.tasks| == 2 && i < 2 && w.tasks[i].phase.Returned?
    requires w.tasks[i].place == HOME && ValueOf(w, w.tasks[i].phase.change) == l
    ensures var v := Take(w, Advance(i));
            && LoadAt(v, HOME) == Plus(LoadAt(w, HOME), l)
            && v.records == w.records
            && v.tasks == w.tasks[i := w.tasks[i].(phase := Finished(Some(w.tasks[i].phase.o)))]
  {
    LoadsAfter(w, i);
    ApplyMoves(w, HOME, l, HOME);
  }

  lemma EarlyApply(w: World, l: Load)
    requires |w.tasks| == 2 && w.tasks[0].phase.Returned? && w.tasks[0].place == HOME && w.tasks[1].place == HOME
    requires ValueOf(w, w.tasks[0].phase.change) == ZERO && w.tasks[1].phase == Returned(0, Fixed(l)) && LoadAt(w, HOME) == ZERO
    ensures var v := Take(Take(w, Advance(0)), Advance(1));
            AllOver(v) && v.records == w.records && LoadAt(v, HOME) == l
  {
    OneApplies(w, 0, ZERO);
    OneApplies(Take(w, Advance(0)), 1, l);
    PlusZero(ZERO);
    PlusZero(l);
  }

  /** Such a run ends with a negative load, no record and no task to correct it. */
  lemma EarlyReleaseDrifts()
    ensures var w := Run(START, EARLY + EMPTYING + APPLYING);
            AllOver(w) && w.records == map[] && LoadAt(w, HOME) == Load(0.0, -5.0)
  {
    EarlyStart();
    EarlyEmpty();
    EarlyDelete();
    EarlyApply(DELETED, Load(0.0, -5.0));
    RunOf3(EMPTY, Advance(1), Advance(0), Advance(1));
    RunSplits(START, EARLY, EMPTYING);
    RunSplits(START, EARLY + EMPTYING, APPLYING);
  }

  /** A refused record leaves the load that the preparation has already applied. */
  lemma RefusedPreparationSlips(w: World, i: nat)
    requires i < |w.tasks| && w.tasks[i].phase.Charged? && w.tasks[i].key in w.records
    ensures Slip(w, Advance(i), w.tasks[i].place) == w.tasks[i].demand
    ensures var v := Take(w, Advance(i)); v.loads == w.loads && v.objects == w.objects && v.records == w.records
    ensures |Take(w, Advance(i)).tasks| == |w.tasks| && Over(Take(w, Advance(i)).tasks[i])
  {
  }
}
