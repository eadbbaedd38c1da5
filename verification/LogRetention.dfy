/**
 Which log files are kept when the directory is too large: the newest uncompressed files always, then
 the others from the newest on as far as size and count allow.
 */
module LogRetention {

  datatype File = File(path: string, size: nat, modified: real, compressed: bool)

  datatype Limits = Limits(size: nat, count: nat, uncompressed: nat)

  function Size(files: seq<File>): nat {
    if files == [] then 0 else Size(files[..|files| - 1]) + files[|files| - 1].size
  }

  // ---------------------------------------------------------------------------------------------
  // Sorting
  // ---------------------------------------------------------------------------------------------

  /** Behind all files at least as new: equally new files keep their order. */
  function Insert(f: File, files: seq<File>): seq<File> {
    if files == [] || files[0].modified < f.modified then [f] + files
    else [files[0]] + Insert(f, files[1..])
  }

  function Sorted(files: seq<File>): seq<File> {
    if files == [] then [] else Insert(files[|files| - 1], Sorted(files[..|files| - 1]))
  }

  lemma {:induction false} InsertAdds(f: File, files: seq<File>)
    ensures multiset(Insert(f, files)) == multiset(files) + multiset{f}
    decreases |files|
  {
    if files != [] && !(files[0].modified < f.modified) {
      InsertAdds(f, files[1..]);
      assert files == [files[0]] + files[1..];
    }
  }

  predicate NewestFirst(files: seq<File>) {
    forall i, j | 0 <= i < j < |files| :: files[i].modified >= files[j].modified
  }

  lemma {:induction false} InsertSorts(f: File, files: seq<File>)
    requires NewestFirst(files)
    ensures NewestFirst(Insert(f, files))
    decreases |files|
  {
    if files != [] && !(files[0].modified < f.modified) {
      InsertSorts(f, files[1..]);
      var rest := Insert(f, files[1..]);
      InsertAdds(f, files[1..]);
      forall j | 0 <= j < |rest| ensures files[0].modified >= rest[j].modified {
        assert rest[j] in multiset(rest);
        assert rest[j] == f || rest[j] in files[1..];
      }
    }
  }

  /** The sorted list has the same files, the newest first. */
  lemma {:induction false} SortedIsSorted(files: seq<File>)
    ensures multiset(Sorted(files)) == multiset(files) && NewestFirst(Sorted(files))
    decreases |files|
  {
    if files != [] {
      var n := |files| - 1;
      SortedIsSorted(files[..n]);
      InsertAdds(files[n], Sorted(files[..n]));
      InsertSorts(files[n], Sorted(files[..n]));
      assert files == files[..n] + [files[n]];
    }
  }

  lemma {:induction false} SizeSplits(a: seq<File>, b: seq<File>)
    ensures Size(a + b) == Size(a) + Size(b)
    decreases |b|
  {
    if b == [] {
      assert a + b == a;
    } else {
      var n := |b| - 1;
      assert (a + b)[..|a| + n] == a + b[..n];
      SizeSplits(a, b[..n]);
    }
  }

  lemma Rejoin(front: seq<File>, f: File, back: seq<File>)
    ensures multiset(front + ([f] + back)) == multiset(front + back) + multiset{f}
    ensures Size(front + ([f] + back)) == Size(front + back) + f.size
  {
    SizeSplits(front, [f] + back);
    SizeSplits([f], back);
    SizeSplits(front, back);
    SizeOfOne(f);
  }

  lemma LastOff(a: seq<File>, b: seq<File>, rest: seq<File>)
    requires a != [] && multiset(a) == multiset(b) == multiset(rest) + multiset{a[|a| - 1]}
    ensures multiset(a[..|a| - 1]) == multiset(rest)
  {
    var n := |a| - 1;
    assert a == a[..n] + [a[n]];
    assert multiset(a[..n]) == multiset(a) - multiset{a[n]};
    assert multiset(rest) == multiset(b) - multiset{a[n]};
  }

  lemma SizeOfOne(f: File)
    ensures Size([f]) == f.size
  {
    assert [f][..0] == [];
  }

  /** The size depends on the files only, not on their order. */
  lemma {:induction false} SizeOfSameFiles(a: seq<File>, b: seq<File>)
    requires multiset(a) == multiset(b)
    ensures Size(a) == Size(b) && |a| == |b|
    decreases |a|
  {
    if a == [] {
      assert |multiset(b)| == 0;
    } else {
      var n := |a| - 1;
      assert a == a[..n] + [a[n]];
      assert a[n] in multiset(b);
      var i :| 0 <= i < |b| && b[i] == a[n];
      var front, back := b[..i], b[i + 1..];
      assert b == front + ([a[n]] + back);
      Rejoin(front, a[n], back);
      LastOff(a, b, front + back);
      SizeOfSameFiles(a[..n], front + back);
    }
  }

  // ---------------------------------------------------------------------------------------------
  // Cleanup
  // ---------------------------------------------------------------------------------------------

  function Uncompressed(files: seq<File>): seq<File> {
    if files == [] then []
    else
      var n := |files| - 1;
      Uncompressed(files[..n]) + if files[n].compressed then [] else [files[n]]
  }

  /** The uncompressed files, the newest first. */
  function Plain(files: seq<File>): seq<File> {
    Sorted(Uncompressed(Sorted(files)))
  }

  function Protected(files: seq<File>, limits: Limits): seq<File> {
    var plain := Plain(files);
    if |plain| <= limits.uncompressed then plain else plain[..limits.uncompressed]
  }

  datatype Plan = Plan(kept: seq<File>, queued: seq<File>)

  predicate Quiet(files: seq<File>, limits: Limits) {
    Size(files) <= limits.size && |files| <= limits.count
  }

  function Greedy(files: seq<File>, plan: Plan, limits: Limits): Plan {
    if files == [] then plan
    else
      var before := Greedy(files[..|files| - 1], plan, limits);
      var f := files[|files| - 1];
      if f in before.kept then before
      else if Size(before.kept) + f.size > limits.size || |before.kept| >= limits.count
      then before.(queued := before.queued + [f])
      else before.(kept := before.kept + [f])
  }

  function Cleanup(files: seq<File>, limits: Limits): Plan {
    if Quiet(files, limits) then Plan(files, [])
    else Greedy(Sorted(files), Plan(Protected(files, limits), []), limits)
  }

  class Cleaner {
    const limits: Limits
    var queue: seq<string>

    constructor (limits: Limits)
      ensures this.limits == limits && queue == []
    {
      this.limits := limits;
      queue := [];
    }

    method PerformCleanup(files: seq<File>)
      modifies this
      ensures queue == old(queue) + Paths(Cleanup(files, limits).queued)
    {
      var total := TotalSize(files);
      if total <= limits.size && |files| <= limits.count {
        return;
      }
      var sorted := Sorted(files);
      var kept := Protected(files, limits);
      var candidates := [];
      ghost var start := Plan(kept, []);
      var current := TotalSize(kept);
      for i := 0 to |sorted|
        invariant Plan(kept, candidates) == Greedy(sorted[..i], start, limits)
        invariant current == Size(kept)
      {
        var f := sorted[i];
        assert sorted[..i + 1][..i] == sorted[..i];
        if f !in kept {
          if current + f.size > limits.size || |kept| >= limits.count {
            candidates := candidates + [f];
          } else {
            current := current + f.size;
            kept := kept + [f];
          }
        }
      }
      assert sorted[..|sorted|] == sorted;
      for i := 0 to |candidates|
        invariant queue == old(queue) + Paths(candidates[..i])
      {
        queue := queue + [candidates[i].path];
        assert candidates[..i + 1][..i] == candidates[..i];
      }
      assert candidates[..|candidates|] == candidates;
    }
  }

  function Paths(files: seq<File>): seq<string> {
    if files == [] then [] else Paths(files[..|files| - 1]) + [files[|files| - 1].path]
  }

  method TotalSize(files: seq<File>) returns (total: nat)
    ensures total == Size(files)
  {
    total := 0;
    for i := 0 to |files|
      invariant total == Size(files[..i])
    {
      total := total + files[i].size;
      assert files[..i + 1][..i] == files[..i];
    }
    assert files[..|files|] == files;
  }

  // ---------------------------------------------------------------------------------------------
  // What is kept
  // ---------------------------------------------------------------------------------------------

  /** No two files are the same. */
  predicate Distinct(files: seq<File>) {
    forall i, j | 0 <= i < j < |files| :: files[i] != files[j]
  }

  lemma {:induction false} DistinctCounts(files: seq<File>)
    ensures Distinct(files) <==> forall f :: multiset(files)[f] <= 1
    decreases |files|
  {
    if files != [] {
      var n := |files| - 1;
      DistinctCounts(files[..n]);
      assert files == files[..n] + [files[n]];
      assert multiset(files) == multiset(files[..n]) + multiset{files[n]};
      if Distinct(files) {
        assert files[n] !in files[..n];
      } else if Distinct(files[..n]) {
        assert files[n] in multiset(files[..n]);
        assert multiset(files)[files[n]] > 1;
      } else {
        var f :| multiset(files[..n])[f] > 1;
        assert multiset(files)[f] > 1;
      }
    }
  }

  lemma SameFilesDistinct(a: seq<File>, b: seq<File>)
    requires multiset(a) == multiset(b) && Distinct(a)
    ensures Distinct(b) && forall f :: f in a <==> f in b
  {
    DistinctCounts(a);
    DistinctCounts(b);
    forall f ensures f in a <==> f in b {
      assert f in multiset(a) <==> f in multiset(b);
    }
  }

  /** One step of the pass, on the file that comes next. */
  lemma GreedyStep(files: seq<File>, plan: Plan, limits: Limits)
    requires files != []
    ensures var before := Greedy(files[..|files| - 1], plan, limits);
            var after := Greedy(files, plan, limits);
            var f := files[|files| - 1];
            || (f in before.kept && after == before)
            || (f !in before.kept && after == before.(queued := before.queued + [f]))
            || (f !in before.kept && after == before.(kept := before.kept + [f]))
  {
  }

  /** A pass over distinct files keeps what was kept, and puts every other file in one of the two lists. */
  lemma {:induction false} GreedySplits(files: seq<File>, kept: seq<File>, limits: Limits)
    requires Distinct(files) && Distinct(kept)
    ensures var after := Greedy(files, Plan(kept, []), limits);
            && kept <= after.kept && Distinct(after.kept) && Distinct(after.queued)
            && (forall f :: f in after.kept ==> f in kept || f in files)
            && (forall f :: f in after.queued ==> f in files && f !in after.kept)
            && (forall f :: f in files ==> f in after.kept || f in after.queued)
    decreases |files|
  {
    if files != [] {
      var n := |files| - 1;
      GreedySplits(files[..n], kept, limits);
      GreedyStep(files, Plan(kept, []), limits);
      assert files == files[..n] + [files[n]];
      assert files[n] !in files[..n];
    }
  }

  /** Kept beyond what was protected only within both limits. */
  lemma {:induction false} GreedyFits(files: seq<File>, kept: seq<File>, limits: Limits)
    ensures var after := Greedy(files, Plan(kept, []), limits);
            after.kept == kept || (Size(after.kept) <= limits.size && |after.kept| <= limits.count)
    decreases |files|
  {
    if files != [] {
      var n := |files| - 1;
      GreedyFits(files[..n], kept, limits);
      var before := Greedy(files[..n], Plan(kept, []), limits);
      SizeSplits(before.kept, [files[n]]);
      assert [files[n]][..0] == [];
    }
  }

  lemma {:induction false} UncompressedMembers(files: seq<File>)
    ensures forall f :: f in Uncompressed(files) <==> f in files && !f.compressed
    decreases |files|
  {
    if files != [] {
      var n := |files| - 1;
      UncompressedMembers(files[..n]);
      assert files == files[..n] + [files[n]];
    }
  }

  lemma {:induction false} UncompressedDistinct(files: seq<File>)
    requires Distinct(files)
    ensures Distinct(Uncompressed(files))
    decreases |files|
  {
    if files != [] {
      var n := |files| - 1;
      UncompressedDistinct(files[..n]);
      UncompressedMembers(files[..n]);
      assert files[n] !in files[..n];
    }
  }

  lemma {:induction false} AllUncompressed(files: seq<File>)
    requires forall i | 0 <= i < |files| :: !files[i].compressed
    ensures Uncompressed(files) == files
    decreases |files|
  {
    if files != [] {
      AllUncompressed(files[..|files| - 1]);
    }
  }

  lemma PlainFiles(files: seq<File>)
    requires Distinct(files)
    ensures Distinct(Plain(files)) && NewestFirst(Plain(files))
    ensures forall f :: f in Plain(files) <==> f in files && !f.compressed
  {
    SortedIsSorted(files);
    SameFilesDistinct(files, Sorted(files));
    UncompressedMembers(Sorted(files));
    UncompressedDistinct(Sorted(files));
    SortedIsSorted(Uncompressed(Sorted(files)));
    SameFilesDistinct(Uncompressed(Sorted(files)), Plain(files));
  }

  lemma FirstAreNewest(all: seq<File>, n: nat, g: File)
    requires n <= |all| && NewestFirst(all) && g in all && g !in all[..n]
    ensures forall i | 0 <= i < n :: all[i].modified >= g.modified
  {
    var j :| 0 <= j < |all| && all[j] == g;
    assert forall k | 0 <= k < n :: all[..n][k] == all[k] && all[k] in all[..n];
    assert j >= n;
  }

  /**
   The protected files are the newest uncompressed ones: each is in the directory and uncompressed, and
   an uncompressed file is left out only when the number is reached by files at least as new.
   */
  lemma ProtectedAreNewest(files: seq<File>, limits: Limits)
    requires Distinct(files)
    ensures var p := Protected(files, limits);
            && Distinct(p) && |p| <= limits.uncompressed
            && (forall f :: f in p ==> f in files && !f.compressed)
            && (forall g :: g in files && !g.compressed && g !in p ==>
                  |p| == limits.uncompressed && forall i | 0 <= i < |p| :: p[i].modified >= g.modified)
  {
    PlainFiles(files);
    var all := Plain(files);
    var p := Protected(files, limits);
    assert p == all[..|p|];
    forall f | f in p ensures f in all {
    }
    forall g | g in all && g !in p
      ensures |p| == limits.uncompressed && forall i | 0 <= i < |p| :: p[i].modified >= g.modified
    {
      FirstAreNewest(all, |p|, g);
    }
  }

  /** The kept files are the protected ones, or all together within both limits. */
  lemma KeptWithinLimits(files: seq<File>, limits: Limits)
    ensures var kept := Cleanup(files, limits).kept;
            && (Quiet(kept, limits) || kept == Protected(files, limits))
            && (!Quiet(files, limits) ==> Protected(files, limits) <= kept)
  {
    if !Quiet(files, limits) {
      GreedyFits(Sorted(files), Protected(files, limits), limits);
      KeepsStart(Sorted(files), Plan(Protected(files, limits), []), limits);
    }
  }

  lemma {:induction false} KeepsStart(files: seq<File>, plan: Plan, limits: Limits)
    ensures plan.kept <= Greedy(files, plan, limits).kept
    decreases |files|
  {
    if files != [] { KeepsStart(files[..|files| - 1], plan, limits); }
  }

  /**
   A cleanup splits the directory into kept and queued files, never queues a protected file, and what it
   keeps is at most the limits, or the protected files where these alone exceed them.
   */
  lemma CleanupPartitions(files: seq<File>, limits: Limits)
    requires Distinct(files)
    ensures var plan := Cleanup(files, limits);
            var p := Protected(files, limits);
            && Distinct(plan.kept) && Distinct(plan.queued)
            && (forall f :: f in files <==> f in plan.kept || f in plan.queued)
            && (forall f :: f in plan.queued ==> f !in plan.kept && f !in p)
            && (Size(plan.kept) <= limits.size || Size(plan.kept) == Size(p))
            && (|plan.kept| <= limits.count || |plan.kept| == |p|)
  {
    var p := Protected(files, limits);
    KeptWithinLimits(files, limits);
    if !Quiet(files, limits) {
      ProtectedAreNewest(files, limits);
      SortedIsSorted(files);
      SameFilesDistinct(files, Sorted(files));
      GreedySplits(Sorted(files), p, limits);
      KeptMembers(p, Cleanup(files, limits).kept);
    }
  }

  lemma KeptMembers(p: seq<File>, kept: seq<File>)
    requires p <= kept
    ensures forall f :: f in p ==> f in kept
  {
    assert p == kept[..|p|];
  }

  lemma {:induction false} NothingNew(files: seq<File>, plan: Plan, limits: Limits)
    requires forall f :: f in files ==> f in plan.kept
    ensures Greedy(files, plan, limits) == plan
    decreases |files|
  {
    if files != [] {
      var n := |files| - 1;
      assert files[n] in files;
      NothingNew(files[..n], plan, limits);
    }
  }

  /** A second cleanup over the survivors, in whatever order the directory lists them, queues nothing. */
  lemma SecondPassQueuesNothing(files: seq<File>, limits: Limits, survivors: seq<File>)
    requires Distinct(files) && multiset(survivors) == multiset(Cleanup(files, limits).kept)
    ensures Cleanup(survivors, limits).queued == []
  {
    var kept := Cleanup(files, limits).kept;
    SizeOfSameFiles(survivors, kept);
    KeptWithinLimits(files, limits);
    if !Quiet(survivors, limits) {
      ProtectedAreNewest(files, limits);
      AllProtected(survivors, kept, limits);
      SortedIsSorted(survivors);
      SameFilesDistinct(kept, survivors);
      SameFilesDistinct(survivors, Sorted(survivors));
      NothingNew(Sorted(survivors), Plan(Protected(survivors, limits), []), limits);
    }
  }

  /** A directory of few enough uncompressed files is protected as a whole. */
  lemma AllProtected(files: seq<File>, kept: seq<File>, limits: Limits)
    requires multiset(files) == multiset(kept) && Distinct(kept) && |kept| <= limits.uncompressed
    requires forall f :: f in kept ==> !f.compressed
    ensures forall f :: f in files ==> f in Protected(files, limits)
  {
    SameFilesDistinct(kept, files);
    SizeOfSameFiles(files, kept);
    SortedIsSorted(files);
    SameFilesDistinct(files, Sorted(files));
    SizeOfSameFiles(files, Sorted(files));
    forall i | 0 <= i < |Sorted(files)| ensures !Sorted(files)[i].compressed {
      assert Sorted(files)[i] in Sorted(files);
    }
    AllUncompressed(Sorted(files));
    SortedIsSorted(Sorted(files));
    SameFilesDistinct(Sorted(files), Sorted(Sorted(files)));
    SizeOfSameFiles(Sorted(files), Sorted(Sorted(files)));
  }

  // ---------------------------------------------------------------------------------------------
  // Why a file is queued
  // ---------------------------------------------------------------------------------------------

  /** The first n kept files left no room for the file. */
  predicate NoRoom(kept: seq<File>, n: nat, f: File, limits: Limits) {
    n <= |kept| && (Size(kept[..n]) + f.size > limits.size || n >= limits.count)
  }

  /** Kept beyond the first `start` files: up to n at least as new as the file, and from n on not newer. */
  predicate Around(kept: seq<File>, start: nat, n: nat, f: File) {
    && start <= n <= |kept|
    && (forall j | start <= j < n :: kept[j].modified >= f.modified)
    && (forall j | n <= j < |kept| :: kept[j].modified <= f.modified)
  }

  lemma NewestBefore(files: seq<File>)
    requires files != [] && NewestFirst(files)
    ensures NewestFirst(files[..|files| - 1])
    ensures forall g | g in files[..|files| - 1] :: g.modified >= files[|files| - 1].modified
  {
  }

  /** Files kept beyond the start come from the pass. */
  lemma {:induction false} KeptComeFrom(files: seq<File>, kept: seq<File>, limits: Limits)
    ensures var after := Greedy(files, Plan(kept, []), limits).kept;
            |kept| <= |after| && forall j | |kept| <= j < |after| :: after[j] in files
    decreases |files|
  {
    if files != [] { KeptComeFrom(files[..|files| - 1], kept, limits); }
  }

  /** A queued file did not fit beside what had been kept when its turn came. */
  lemma {:induction false} QueuedHadNoRoom(files: seq<File>, kept: seq<File>, limits: Limits, f: File) returns (n: nat)
    requires NewestFirst(files) && f in Greedy(files, Plan(kept, []), limits).queued
    ensures var after := Greedy(files, Plan(kept, []), limits).kept;
            f in files && NoRoom(after, n, f, limits) && Around(after, |kept|, n, f)
    decreases |files|
  {
    var last := |files| - 1;
    var before := Greedy(files[..last], Plan(kept, []), limits);
    NewestBefore(files);
    KeptComeFrom(files[..last], kept, limits);
    if f in before.queued {
      n := QueuedHadNoRoom(files[..last], kept, limits, f);
      assert f in files[..last];
      assert Greedy(files, Plan(kept, []), limits).kept[..n] == before.kept[..n];
    } else {
      n := |before.kept|;
      assert f == files[last];
      assert before.kept[..n] == before.kept;
    }
  }

  /**
   Nothing is queued without need: beside the protected files and the kept ones at least as new as it, a
   queued file would have exceeded the size or the count; the other kept files are not newer than it.
   */
  lemma QueuedOnlyWithoutRoom(files: seq<File>, limits: Limits, f: File) returns (n: nat)
    requires f in Cleanup(files, limits).queued
    ensures var kept := Cleanup(files, limits).kept;
            NoRoom(kept, n, f, limits) && Around(kept, |Protected(files, limits)|, n, f)
  {
    SortedIsSorted(files);
    n := QueuedHadNoRoom(Sorted(files), Protected(files, limits), limits, f);
  }

  /** A directory within both limits is left alone. */
  lemma QuietIsKept(files: seq<File>, limits: Limits)
    requires Size(files) <= limits.size && |files| <= limits.count
    ensures Cleanup(files, limits) == Plan(files, [])
  {
  }

  // ---------------------------------------------------------------------------------------------
  // Equally new files
  // ---------------------------------------------------------------------------------------------

  /** The files of one modification time, in order. */
  function OfTime(files: seq<File>, time: real): seq<File> {
    if files == [] then [] else (if files[0].modified == time then [files[0]] else []) + OfTime(files[1..], time)
  }

  lemma {:induction false} NoneOfTime(files: seq<File>, time: real)
    requires forall i | 0 <= i < |files| :: files[i].modified < time
    ensures OfTime(files, time) == []
  {
    if files != [] { NoneOfTime(files[1..], time); }
  }

  lemma {:induction false} InsertIsLast(f: File, files: seq<File>, time: real)
    requires NewestFirst(files)
    ensures OfTime(Insert(f, files), time) == OfTime(files, time) + if f.modified == time then [f] else []
  {
    if files == [] {
      assert [f][1..] == [];
    } else if files[0].modified < f.modified {
      assert ([f] + files)[1..] == files;
      if f.modified == time { NoneOfTime(files, time); }
    } else {
      InsertIsLast(f, files[1..], time);
      assert Insert(f, files)[1..] == Insert(f, files[1..]);
    }
  }

  lemma {:induction false} OfTimeConcat(a: seq<File>, b: seq<File>, time: real)
    ensures OfTime(a + b, time) == OfTime(a, time) + OfTime(b, time)
    decreases |a|
  {
    if a == [] {
      assert a + b == b;
    } else {
      assert (a + b)[1..] == a[1..] + b;
      OfTimeConcat(a[1..], b, time);
    }
  }

  lemma OfTimeOne(f: File, time: real)
    ensures OfTime([f], time) == if f.modified == time then [f] else []
  {
    assert [f][1..] == [];
  }

  lemma InsertedLast(files: seq<File>, f: File, time: real)
    requires OfTime(Sorted(files), time) == OfTime(files, time)
    ensures OfTime(Insert(f, Sorted(files)), time) == OfTime(files + [f], time)
  {
    SortedIsSorted(files);
    InsertIsLast(f, Sorted(files), time);
    OfTimeConcat(files, [f], time);
    OfTimeOne(f, time);
  }

  /** Sorting keeps files of the same time in their order. */
  lemma {:induction false} SortIsStable(files: seq<File>, time: real)
    ensures OfTime(Sorted(files), time) == OfTime(files, time)
    decreases |files|
  {
    if files != [] {
      var n := |files| - 1;
      SortIsStable(files[..n], time);
      InsertedLast(files[..n], files[n], time);
      assert files[..n] + [files[n]] == files;
    }
  }
}
