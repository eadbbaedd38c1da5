/**
 Allocating and releasing the load of a request while many tasks run. A task is suspended at every
 await, so each step below is the code between two awaits.

 The handler's allocation records a workload object and returns that object as the change to apply. The
 router's own preparation applies the load first and records it afterwards. A release finds the request's
 record, empties one field of that shared object, stores it back, and deletes the record if the other
 field is empty; only then does its caller apply the change to the endpoint.
 */
module WorkloadRuns {
  import opened Prelude
  import opened CoordinatorPools

  datatype Action = Allocate | Prepare | ReleaseKv | ReleaseTokens

  predicate Creates(a: Action) {
    a == Allocate || a == Prepare
  }

  datatype ReqKey = ReqKey(request: string, role: Role)

  /** An endpoint of an instance. */
  datatype Place = Place(instance: int, endpoint: int)

  /** What a task hands to its caller: a value of its own, or the recorded object. */
  datatype Change = Fixed(load: Load) | Shared(shared: nat)

  datatype Phase =
    | Started
    | Charged
    | Found(o: nat)
    | Zeroed(o: nat, amount: Load)
    | Deleting(o: nat, amount: Load)
    | Returned(o: nat, change: Change)
    | Finished(of: Option<nat>)

  datatype Task = Task(key: ReqKey, place: Place, action: Action, demand: Load, phase: Phase)

  /** A recorded workload object, with the request and endpoint it was created for. */
  datatype Object = Object(key: ReqKey, place: Place, load: Load)

  datatype World = World(records: map<ReqKey, nat>, objects: seq<Object>, tasks: seq<Task>, loads: map<Place, Load>)

  datatype Step =
    | Begin(key: ReqKey, place: Place, action: Action, length: nat)
    | Advance(i: nat)
    | Drop(request: string)

  const START := World(map[], [], [], map[])

  // ---------------------------------------------------------------------------------------------
  // Demand
  // ---------------------------------------------------------------------------------------------

  function PrefillScore(length: nat): real {
    length as real / 4.0 * 0.0345 + 120.0745
  }

  function Demand(role: Role, length: nat): Load {
    match role
    case Prefill => Load(PrefillScore(length), PrefillScore(length))
    case Decode => Load(0.0, length as real)
    case Hybrid =>
      var score := (PrefillScore(length) + length as real) * 0.5;
      Load(score, score)
  }

  /** No demand is negative, and only an empty decode request demands nothing. */
  lemma DemandIsSound(role: Role, length: nat)
    ensures var d := Demand(role, length);
            d.kv >= 0.0 && d.tokens >= 0.0 && (d == ZERO <==> role == Decode && length == 0)
  {
  }

  /**
   A prefill request demands the same of both kinds, from 120.0745 on for every length and 0.0345 more for
   every four tokens; a decode request demands its length in tokens; a hybrid one the mean of the two, of
   both kinds.
   */
  lemma DemandValues(length: nat, more: nat)
    ensures var p, q, d, h := Demand(Prefill, length), Demand(Prefill, length + more), Demand(Decode, length), Demand(Hybrid, length);
            && p.kv == p.tokens && Demand(Prefill, 0).tokens == 120.0745
            && 4.0 * (q.tokens - p.tokens) == more as real * 0.0345
            && d == Load(0.0, length as real)
            && h.kv == h.tokens && 2.0 * h.tokens == p.tokens + d.tokens
  {
  }

  // ---------------------------------------------------------------------------------------------
  // Steps
  // ---------------------------------------------------------------------------------------------

  /** The field a release empties, as a negative change. */
  function Amount(a: Action, l: Load): Load {
    if a == ReleaseKv then Load(-l.kv, 0.0) else Load(0.0, -l.tokens)
  }

  function Emptied(a: Action, l: Load): Load {
    if a == ReleaseKv then l.(kv := 0.0) else l.(tokens := 0.0)
  }

  /** The field the other kind of release empties. */
  function Rest(a: Action, l: Load): real {
    if a == ReleaseKv then l.tokens else l.kv
  }

  function LoadAt(w: World, p: Place): Load {
    if p in w.loads then w.loads[p] else ZERO
  }

  function ValueOf(w: World, c: Change): Load {
    match c
    case Fixed(l) => l
    case Shared(o) => if o < |w.objects| then w.objects[o].load else ZERO
  }

  function Apply(w: World, p: Place, change: Load): World {
    w.(loads := w.loads[p := Plus(LoadAt(w, p), change)])
  }

  /** Adding a record for a key that has none. */
  function Record(w: World, t: Task): World {
    w.(objects := w.objects + [Object(t.key, t.place, t.demand)], records := w.records[t.key := |w.objects|])
  }

  /** What the code up to the task's next await does to the records, the objects and the loads. */
  function Effect(w: World, t: Task): (v: World)
    ensures v.tasks == w.tasks
  {
    match t.phase
    case Started =>
      if t.action == Prepare then Apply(w, t.place, t.demand)
      else if t.action == Allocate && t.key !in w.records then Record(w, t)
      else w
    case Charged => if t.key in w.records then w else Record(w, t)
    case Found(o) =>
      if o < |w.objects| then
        w.(objects := w.objects[o := w.objects[o].(load := Emptied(t.action, w.objects[o].load))])
      else w
    case Zeroed(o, _) => if o < |w.objects| && t.key in w.records then w.(records := w.records[t.key := o]) else w
    case Deleting(_, _) => w.(records := w.records - {t.key})
    case Returned(_, change) => Apply(w, t.place, ValueOf(w, change))
    case Finished(_) => w
  }

  /** Where the task waits next. */
  function NextPhase(w: World, t: Task): Phase {
    match t.phase
    case Started =>
      if t.action == Prepare then Charged
      else if t.action == Allocate then
        if t.key in w.records then Finished(None) else Returned(|w.objects|, Shared(|w.objects|))
      else if t.key in w.records then Found(w.records[t.key])
      else Finished(None)
    case Charged => if t.key in w.records then Finished(None) else Finished(Some(|w.objects|))
    case Found(o) => if o < |w.objects| then Zeroed(o, Amount(t.action, w.objects[o].load)) else t.phase
    case Zeroed(o, amount) =>
      if o >= |w.objects| then t.phase
      else if Rest(t.action, w.objects[o].load) <= 0.0 then Deleting(o, amount)
      else Returned(o, Fixed(amount))
    case Deleting(o, amount) => Returned(o, Fixed(amount))
    case Returned(o, _) => Finished(Some(o))
    case Finished(_) => t.phase
  }

  function AdvanceTask(w: World, i: nat): World
    requires i < |w.tasks|
  {
    var t := w.tasks[i];
    Effect(w, t).(tasks := w.tasks[i := t.(phase := NextPhase(w, t))])
  }

  function Take(w: World, s: Step): World {
    match s
    case Begin(key, place, action, length) =>
      w.(tasks := w.tasks + [Task(key, place, action, Demand(key.role, length), Started)])
    case Advance(i) => if i < |w.tasks| then AdvanceTask(w, i) else w
    case Drop(request) => w.(records := map k | k in w.records && k.request != request :: w.records[k])
  }

  function Run(w: World, steps: seq<Step>): World
    decreases |steps|
  {
    if steps == [] then w else Run(Take(w, steps[0]), steps[1..])
  }

  lemma {:induction false} RunSplits(w: World, a: seq<Step>, b: seq<Step>)
    ensures Run(w, a + b) == Run(Run(w, a), b)
    decreases |a|
  {
    if a == [] {
      assert a + b == b;
    } else {
      assert (a + b)[1..] == a[1..] + b;
      RunSplits(Take(w, a[0]), a[1..], b);
    }
  }

  // ---------------------------------------------------------------------------------------------
  // What holds in every run
  // ---------------------------------------------------------------------------------------------

  /** The object of a task, once it has one. */
  function ObjectOf(t: Task): Option<nat> {
    match t.phase
    case Started => None
    case Charged => None
    case Found(o) => Some(o)
    case Zeroed(o, _) => Some(o)
    case Deleting(o, _) => Some(o)
    case Returned(o, _) => Some(o)
    case Finished(of) => of
  }

  predicate Over(t: Task) {
    t.phase.Finished?
  }

  predicate AllOver(w: World) {
    forall i | 0 <= i < |w.tasks| :: Over(w.tasks[i])
  }

  /** The release found the record and has returned its change. */
  predicate Released(t: Task, a: Action) {
    t.action == a && (t.phase.Returned? || (t.phase.Finished? && t.phase.of.Some?))
  }

  predicate NonNegative(l: Load) {
    l.kv >= 0.0 && l.tokens >= 0.0
  }

  predicate PhaseFits(t: Task) {
    match t.phase
    case Started => true
    case Charged => t.action == Prepare
    case Found(_) => !Creates(t.action)
    case Zeroed(_, _) => !Creates(t.action)
    case Deleting(_, _) => !Creates(t.action)
    case Returned(o, change) => if t.action == Allocate then change == Shared(o) else t.action != Prepare && change.Fixed?
    case Finished(_) => true
  }

  /** The task's object is its key's; a creator's is at its place, and a release past emptying has emptied it. */
  predicate TaskOk(w: World, t: Task) {
    && PhaseFits(t) && NonNegative(t.demand)
    && (ObjectOf(t).Some? ==>
          var o := ObjectOf(t).value;
          && o < |w.objects| && w.objects[o].key == t.key
          && (Creates(t.action) ==> w.objects[o].place == t.place)
          && (!Creates(t.action) && !t.phase.Found? ==> w.objects[o].load == Emptied(t.action, w.objects[o].load))
          && (t.phase.Deleting? ==> w.objects[o].load == ZERO))
  }

  /** Two creators never have the same object. */
  predicate CreatorsDiffer(s: Task, t: Task) {
    Creates(s.action) && Creates(t.action) && ObjectOf(s).Some? ==> ObjectOf(s) != ObjectOf(t)
  }

  predicate WellFormed(w: World) {
    && (forall k :: k in w.records ==> w.records[k] < |w.objects| && w.objects[w.records[k]].key == k)
    && (forall o | 0 <= o < |w.objects| :: NonNegative(w.objects[o].load))
    && (forall i | 0 <= i < |w.tasks| :: TaskOk(w, w.tasks[i]))
    && (forall i, j | 0 <= i < j < |w.tasks| :: CreatorsDiffer(w.tasks[i], w.tasks[j]))
  }

  /** Each field keeps its value or becomes zero. */
  predicate Shrinks(a: Load, b: Load) {
    (b.kv == a.kv || b.kv == 0.0) && (b.tokens == a.tokens || b.tokens == 0.0)
  }

  /** Objects keep their key and place, and their fields are only emptied. */
  predicate Extends(w: World, v: World) {
    && |w.objects| <= |v.objects|
    && forall o | 0 <= o < |w.objects| ::
         v.objects[o].key == w.objects[o].key && v.objects[o].place == w.objects[o].place && Shrinks(w.objects[o].load, v.objects[o].load)
  }

  lemma StepExtends(w: World, s: Step)
    ensures Extends(w, Take(w, s))
  {
  }

  lemma ExtendsKeepsTask(w: World, v: World, t: Task)
    requires Extends(w, v) && TaskOk(w, t)
    ensures TaskOk(v, t)
  {
  }

  /** Only the task that advances changes. */
  lemma OthersStay(w: World, i: nat, j: nat)
    requires i < |w.tasks| && j < |w.tasks|
    ensures |AdvanceTask(w, i).tasks| == |w.tasks|
    ensures j != i ==> AdvanceTask(w, i).tasks[j] == w.tasks[j]
    ensures var t, u := w.tasks[j], AdvanceTask(w, i).tasks[j];
            u.key == t.key && u.place == t.place && u.action == t.action && u.demand == t.demand
  {
  }

  lemma AdvancedTaskOk(w: World, i: nat)
    requires WellFormed(w) && i < |w.tasks|
    ensures TaskOk(AdvanceTask(w, i), AdvanceTask(w, i).tasks[i])
  {
    assert TaskOk(w, w.tasks[i]);
    if w.tasks[i].phase.Zeroed? {
      assert NonNegative(w.objects[w.tasks[i].phase.o].load);
    }
  }

  lemma AdvanceKeepsRecords(w: World, i: nat)
    requires WellFormed(w) && i < |w.tasks|
    ensures var v := AdvanceTask(w, i);
            forall k :: k in v.records ==> v.records[k] < |v.objects| && v.objects[v.records[k]].key == k
  {
    assert TaskOk(w, w.tasks[i]);
  }

  lemma AdvanceKeepsSigns(w: World, i: nat)
    requires WellFormed(w) && i < |w.tasks|
    ensures var v := AdvanceTask(w, i);
            forall o | 0 <= o < |v.objects| :: NonNegative(v.objects[o].load)
  {
    assert TaskOk(w, w.tasks[i]);
  }

  /** A creator that gets its object gets a new one. */
  lemma NewObjectIsNew(w: World, i: nat)
    requires WellFormed(w) && i < |w.tasks|
    ensures var t, u := w.tasks[i], AdvanceTask(w, i).tasks[i];
            Creates(t.action) ==> ObjectOf(u) == ObjectOf(t) || (ObjectOf(t) == None && ObjectOf(u) == Some(|w.objects|))
  {
    assert TaskOk(w, w.tasks[i]);
  }

  lemma AdvanceKeepsCreators(w: World, i: nat, j: nat, k: nat)
    requires WellFormed(w) && i < |w.tasks| && j < k < |w.tasks|
    ensures CreatorsDiffer(AdvanceTask(w, i).tasks[j], AdvanceTask(w, i).tasks[k])
  {
    OthersStay(w, i, j);
    OthersStay(w, i, k);
    NewObjectIsNew(w, i);
    assert TaskOk(w, w.tasks[j]) && TaskOk(w, w.tasks[k]) && CreatorsDiffer(w.tasks[j], w.tasks[k]);
  }

  lemma AdvanceKeepsWellFormed(w: World, i: nat)
    requires WellFormed(w) && i < |w.tasks|
    ensures WellFormed(AdvanceTask(w, i))
  {
    var v := AdvanceTask(w, i);
    StepExtends(w, Advance(i));
    AdvanceKeepsRecords(w, i);
    AdvanceKeepsSigns(w, i);
    OthersStay(w, i, i);
    forall j | 0 <= j < |v.tasks| ensures TaskOk(v, v.tasks[j]) {
      if j == i {
        AdvancedTaskOk(w, i);
      } else {
        OthersStay(w, i, j);
        ExtendsKeepsTask(w, v, w.tasks[j]);
      }
    }
    forall j, k | 0 <= j < k < |v.tasks| ensures CreatorsDiffer(v.tasks[j], v.tasks[k]) {
      AdvanceKeepsCreators(w, i, j, k);
    }
  }

  lemma BeginKeepsWellFormed(w: World, s: Step)
    requires WellFormed(w) && s.Begin?
    ensures WellFormed(Take(w, s))
  {
    var v := Take(w, s);
    DemandIsSound(s.key.role, s.length);
    forall j | 0 <= j < |v.tasks| ensures TaskOk(v, v.tasks[j]) {
      if j < |w.tasks| { assert TaskOk(w, w.tasks[j]); }
    }
    forall j, k | 0 <= j < k < |v.tasks| ensures CreatorsDiffer(v.tasks[j], v.tasks[k]) {
      if k < |w.tasks| { assert CreatorsDiffer(w.tasks[j], w.tasks[k]); }
    }
  }

  lemma DropKeepsWellFormed(w: World, s: Step)
    requires WellFormed(w) && s.Drop?
    ensures WellFormed(Take(w, s))
  {
    forall j | 0 <= j < |w.tasks| ensures TaskOk(Take(w, s), w.tasks[j]) {
      ExtendsKeepsTask(w, Take(w, s), w.tasks[j]);
    }
  }

  /** Kept by every step, whatever the callers do. */
  lemma StepKeepsWellFormed(w: World, s: Step)
    requires WellFormed(w)
    ensures WellFormed(Take(w, s))
  {
    match s
    case Begin(_, _, _, _) => BeginKeepsWellFormed(w, s);
    case Drop(_) => DropKeepsWellFormed(w, s);
    case Advance(i) => if i < |w.tasks| { AdvanceKeepsWellFormed(w, i); }
  }

  // ---------------------------------------------------------------------------------------------
  // One allocation per request and role
  // ---------------------------------------------------------------------------------------------

  predicate Once(w: World, s: Step) {
    s.Begin? && Creates(s.action) ==> forall i | 0 <= i < |w.tasks| :: w.tasks[i].key == s.key ==> !Creates(w.tasks[i].action)
  }

  predicate AlwaysOnce(w: World, steps: seq<Step>)
    decreases |steps|
  {
    steps == [] || (Once(w, steps[0]) && AlwaysOnce(Take(w, steps[0]), steps[1..]))
  }

  predicate OneCreator(s: Task, t: Task) {
    Creates(s.action) && Creates(t.action) ==> s.key != t.key
  }

  predicate HasCreator(w: World, o: nat) {
    exists i :: 0 <= i < |w.tasks| && Creates(w.tasks[i].action) && ObjectOf(w.tasks[i]) == Some(o)
  }

  /** One release of each kind has returned: the record is gone. */
  predicate PairGone(w: World, s: Task, t: Task) {
    s.key == t.key && Released(s, ReleaseKv) && Released(t, ReleaseTokens) ==> s.key !in w.records
  }

  ghost predicate Unique(w: World) {
    && WellFormed(w)
    && (forall i, j | 0 <= i < j < |w.tasks| :: OneCreator(w.tasks[i], w.tasks[j]))
    && (forall o | 0 <= o < |w.objects| :: HasCreator(w, o))
    && (forall i, j | 0 <= i < |w.tasks| && 0 <= j < |w.tasks| :: PairGone(w, w.tasks[i], w.tasks[j]))
  }

  lemma EarlierCreatorDiffers(w: World, i: nat, j: nat)
    requires Unique(w) && i < j < |w.tasks|
    ensures OneCreator(w.tasks[i], w.tasks[j])
  {
  }

  /** A key has one creator. */
  lemma SameCreator(w: World, i: nat, j: nat)
    requires Unique(w) && i < |w.tasks| && j < |w.tasks| && w.tasks[i].key == w.tasks[j].key
    requires Creates(w.tasks[i].action) && Creates(w.tasks[j].action)
    ensures i == j
  {
    if i < j { EarlierCreatorDiffers(w, i, j); }
    if j < i { EarlierCreatorDiffers(w, j, i); }
  }

  lemma CreatorOf(w: World, o: nat) returns (i: nat)
    requires Unique(w) && o < |w.objects|
    ensures i < |w.tasks| && Creates(w.tasks[i].action) && ObjectOf(w.tasks[i]) == Some(o) && w.tasks[i].key == w.objects[o].key
  {
    assert HasCreator(w, o);
    i :| 0 <= i < |w.tasks| && Creates(w.tasks[i].action) && ObjectOf(w.tasks[i]) == Some(o);
    assert TaskOk(w, w.tasks[i]);
  }

  /** A key has at most one object, and none before its creator has made it. */
  lemma OneObject(w: World, o: nat, q: nat)
    requires Unique(w) && o < |w.objects| && q < |w.objects| && w.objects[o].key == w.objects[q].key
    ensures o == q
  {
    var i := CreatorOf(w, o);
    var j := CreatorOf(w, q);
    SameCreator(w, i, j);
  }

  lemma NoObjectYet(w: World, i: nat, o: nat)
    requires Unique(w) && i < |w.tasks| && Creates(w.tasks[i].action) && ObjectOf(w.tasks[i]) == None
    requires o < |w.objects|
    ensures w.objects[o].key != w.tasks[i].key
  {
    var j := CreatorOf(w, o);
    if w.objects[o].key == w.tasks[i].key { SameCreator(w, i, j); }
  }

  /** Storing the object back changes nothing: a record that is still there holds the same object. */
  lemma StoreIsIdle(w: World, i: nat)
    requires Unique(w) && i < |w.tasks| && w.tasks[i].phase.Zeroed?
    ensures AdvanceTask(w, i).records == w.records
  {
    assert TaskOk(w, w.tasks[i]);
    var k := w.tasks[i].key;
    if k in w.records {
      OneObject(w, w.records[k], w.tasks[i].phase.o);
    }
  }

  /** A new record is for a key that had no object. */
  lemma RecordsAfter(w: World, i: nat, k: ReqKey)
    requires Unique(w) && i < |w.tasks|
    ensures var v := AdvanceTask(w, i);
            k in v.records ==> (k in w.records && v.records[k] == w.records[k]) ||
                               (k == w.tasks[i].key && v.records[k] == |w.objects| && ObjectOf(w.tasks[i]) == None && Creates(w.tasks[i].action))
  {
    assert TaskOk(w, w.tasks[i]);
    if w.tasks[i].phase.Zeroed? { StoreIsIdle(w, i); }
  }

  lemma AdvanceKeepsOwners(w: World, i: nat, o: nat)
    requires Unique(w) && i < |w.tasks| && o < |AdvanceTask(w, i).objects|
    ensures HasCreator(AdvanceTask(w, i), o)
  {
    var v := AdvanceTask(w, i);
    OthersStay(w, i, i);
    NewObjectIsNew(w, i);
    if o < |w.objects| {
      assert HasCreator(w, o);
      var j :| 0 <= j < |w.tasks| && Creates(w.tasks[j].action) && ObjectOf(w.tasks[j]) == Some(o);
      OthersStay(w, i, j);
      assert TaskOk(w, w.tasks[j]);
      assert Creates(v.tasks[j].action) && ObjectOf(v.tasks[j]) == Some(o);
    } else {
      assert TaskOk(w, w.tasks[i]);
      assert Creates(v.tasks[i].action) && ObjectOf(v.tasks[i]) == Some(o);
    }
  }

  lemma ReleasedHasObject(w: World, t: Task, a: Action)
    requires TaskOk(w, t) && Released(t, a) && !Creates(a)
    ensures ObjectOf(t).Some? && ObjectOf(t).value < |w.objects| && w.objects[ObjectOf(t).value].key == t.key
    ensures var l := w.objects[ObjectOf(t).value].load; l == Emptied(a, l)
  {
  }

  /** A release that returns without deleting has seen the other field full, so the other is not over. */
  lemma OtherNotReleased(w: World, i: nat, j: nat, a: Action)
    requires Unique(w) && i < |w.tasks| && j < |w.tasks| && w.tasks[i].key == w.tasks[j].key
    requires w.tasks[i].phase.Zeroed? && Released(w.tasks[j], a) && !Creates(a) && a != w.tasks[i].action
    ensures AdvanceTask(w, i).tasks[i].phase.Deleting?
  {
    assert TaskOk(w, w.tasks[i]) && TaskOk(w, w.tasks[j]);
    ReleasedHasObject(w, w.tasks[j], a);
    OneObject(w, w.tasks[i].phase.o, ObjectOf(w.tasks[j]).value);
  }

  /** What a release looked like before it counted as released. */
  lemma BeforeReleased(w: World, i: nat, a: Action)
    requires WellFormed(w) && i < |w.tasks| && Released(AdvanceTask(w, i).tasks[i], a) && !Creates(a)
    ensures Released(w.tasks[i], a) || w.tasks[i].phase.Zeroed? || (w.tasks[i].phase.Deleting? && w.tasks[i].key !in AdvanceTask(w, i).records)
  {
    assert TaskOk(w, w.tasks[i]);
  }

  lemma AdvanceKeepsPairs(w: World, i: nat, j: nat, k: nat)
    requires Unique(w) && i < |w.tasks| && j < |w.tasks| && k < |w.tasks|
    ensures PairGone(AdvanceTask(w, i), AdvanceTask(w, i).tasks[j], AdvanceTask(w, i).tasks[k])
  {
    var v := AdvanceTask(w, i);
    OthersStay(w, i, j);
    OthersStay(w, i, k);
    if v.tasks[j].key == v.tasks[k].key && Released(v.tasks[j], ReleaseKv) && Released(v.tasks[k], ReleaseTokens) {
      RecordsAfter(w, i, v.tasks[j].key);
      assert TaskOk(w, w.tasks[j]) && TaskOk(w, w.tasks[k]) && PairGone(w, w.tasks[j], w.tasks[k]);
      if j == i { BeforeReleased(w, i, ReleaseKv); } else { ReleasedHasObject(w, w.tasks[j], ReleaseKv); }
      if k == i { BeforeReleased(w, i, ReleaseTokens); } else { ReleasedHasObject(w, w.tasks[k], ReleaseTokens); }
      if j == i && w.tasks[i].phase.Zeroed? { OtherNotReleased(w, i, k, ReleaseTokens); }
      if k == i && w.tasks[i].phase.Zeroed? { OtherNotReleased(w, i, j, ReleaseKv); }
      if Creates(w.tasks[i].action) && ObjectOf(w.tasks[i]) == None {
        NoObjectYet(w, i, ObjectOf(w.tasks[if j == i then k else j]).value);
      }
    }
  }

  lemma AdvanceKeepsUnique(w: World, i: nat)
    requires Unique(w) && i < |w.tasks|
    ensures Unique(AdvanceTask(w, i))
  {
    var v := AdvanceTask(w, i);
    AdvanceKeepsWellFormed(w, i);
    OthersStay(w, i, i);
    forall j, k | 0 <= j < k < |v.tasks| ensures OneCreator(v.tasks[j], v.tasks[k]) {
      OthersStay(w, i, j);
      OthersStay(w, i, k);
      assert OneCreator(w.tasks[j], w.tasks[k]);
    }
    forall o | 0 <= o < |v.objects| ensures HasCreator(v, o) {
      AdvanceKeepsOwners(w, i, o);
    }
    forall j, k | 0 <= j < |v.tasks| && 0 <= k < |v.tasks| ensures PairGone(v, v.tasks[j], v.tasks[k]) {
      AdvanceKeepsPairs(w, i, j, k);
    }
  }

  lemma BeginKeepsUnique(w: World, s: Step)
    requires Unique(w) && s.Begin? && Once(w, s)
    ensures Unique(Take(w, s))
  {
    var v := Take(w, s);
    BeginKeepsWellFormed(w, s);
    forall o | 0 <= o < |v.objects| ensures HasCreator(v, o) {
      assert HasCreator(w, o);
      var j :| 0 <= j < |w.tasks| && Creates(w.tasks[j].action) && ObjectOf(w.tasks[j]) == Some(o);
      assert v.tasks[j] == w.tasks[j];
    }
    forall j, k | 0 <= j < k < |v.tasks| ensures OneCreator(v.tasks[j], v.tasks[k]) {
      if k < |w.tasks| { assert OneCreator(w.tasks[j], w.tasks[k]); }
    }
    forall j, k | 0 <= j < |v.tasks| && 0 <= k < |v.tasks| ensures PairGone(v, v.tasks[j], v.tasks[k]) {
      if j < |w.tasks| && k < |w.tasks| { assert PairGone(w, w.tasks[j], w.tasks[k]); }
    }
  }

  lemma DropKeepsUnique(w: World, s: Step)
    requires Unique(w) && s.Drop?
    ensures Unique(Take(w, s))
  {
    var v := Take(w, s);
    DropKeepsWellFormed(w, s);
    forall o | 0 <= o < |v.objects| ensures HasCreator(v, o) {
      assert HasCreator(w, o);
    }
    forall j, k | 0 <= j < |v.tasks| && 0 <= k < |v.tasks| ensures PairGone(v, v.tasks[j], v.tasks[k]) {
      assert PairGone(w, w.tasks[j], w.tasks[k]);
    }
  }

  /** With one allocation per request and role, kept by every step of any number of releases. */
  lemma StepKeepsUnique(w: World, s: Step)
    requires Unique(w) && Once(w, s)
    ensures Unique(Take(w, s))
  {
    match s
    case Begin(_, _, _, _) => BeginKeepsUnique(w, s);
    case Drop(_) => DropKeepsUnique(w, s);
    case Advance(i) => if i < |w.tasks| { AdvanceKeepsUnique(w, i); }
  }

  lemma {:induction false} RunKeepsUnique(w: World, steps: seq<Step>)
    requires Unique(w) && AlwaysOnce(w, steps)
    ensures Unique(Run(w, steps))
    decreases |steps|
  {
    if steps != [] {
      StepKeepsUnique(w, steps[0]);
      RunKeepsUnique(Take(w, steps[0]), steps[1..]);
    }
  }

  /** One release of each kind has returned: the record is gone and the workload is zero. */
  lemma PairIsClear(w: World, i: nat, j: nat)
    requires Unique(w) && i < |w.tasks| && j < |w.tasks| && w.tasks[i].key == w.tasks[j].key
    requires Released(w.tasks[i], ReleaseKv) && Released(w.tasks[j], ReleaseTokens)
    ensures w.tasks[i].key !in w.records
    ensures forall o | 0 <= o < |w.objects| :: w.objects[o].key == w.tasks[i].key ==> w.objects[o].load == ZERO
  {
    assert TaskOk(w, w.tasks[i]) && TaskOk(w, w.tasks[j]) && PairGone(w, w.tasks[i], w.tasks[j]);
    ReleasedHasObject(w, w.tasks[i], ReleaseKv);
    ReleasedHasObject(w, w.tasks[j], ReleaseTokens);
    forall o | 0 <= o < |w.objects| && w.objects[o].key == w.tasks[i].key ensures w.objects[o].load == ZERO {
      OneObject(w, o, ObjectOf(w.tasks[i]).value);
      OneObject(w, o, ObjectOf(w.tasks[j]).value);
    }
  }
}
