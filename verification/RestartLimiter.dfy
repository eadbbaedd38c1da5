/**
 The sliding window that limits how often a supervised process is restarted. The check and the record of
 a restart read the clock at two moments; a check forgets the records that are too old.
 */
module RestartLimiter {

  const MAX_RESTARTS: nat := 5
  const WINDOW: real := 60.0

  /** Dropping from the front what is older than the cutoff. */
  function Pruned(times: seq<real>, cutoff: real): seq<real> {
    if times != [] && times[0] < cutoff then Pruned(times[1..], cutoff) else times
  }

  class RestartLimiter {
    const max: nat
    var timestamps: seq<real>

    constructor (max: nat)
      ensures this.max == max && timestamps == []
    {
      this.max := max;
      timestamps := [];
    }

    method Record(now: real)
      modifies this
      ensures timestamps == old(timestamps) + [now]
    {
      timestamps := timestamps + [now];
    }

    method PruneOld(now: real)
      modifies this
      ensures timestamps == Pruned(old(timestamps), now - WINDOW)
    {
      var cutoff := now - WINDOW;
      while timestamps != [] && timestamps[0] < cutoff
        invariant Pruned(timestamps, cutoff) == Pruned(old(timestamps), cutoff)
        decreases |timestamps|
      {
        timestamps := timestamps[1..];
      }
    }

    method CanRestart(now: real) returns (ok: bool)
      modifies this
      ensures timestamps == Pruned(old(timestamps), now - WINDOW)
      ensures ok <==> |timestamps| < max
    {
      PruneOld(now);
      ok := |timestamps| < max;
    }
  }

  // ---------------------------------------------------------------------------------------------
  // A supervised process
  // ---------------------------------------------------------------------------------------------

  /** One round in which the process was found dead: when it was checked, and when a start succeeded. */
  datatype Round = Round(checked: real, recorded: real, started: bool)

  /** What the limiter remembers, and everything that was ever recorded. */
  datatype Process = Process(kept: seq<real>, history: seq<real>)

  function Supervise(p: Process, r: Round): Process {
    var kept := Pruned(p.kept, r.checked - WINDOW);
    if |kept| < MAX_RESTARTS && r.started then Process(kept + [r.recorded], p.history + [r.recorded])
    else p.(kept := kept)
  }

  function Run(rounds: seq<Round>): Process {
    if rounds == [] then Process([], []) else Supervise(Run(rounds[..|rounds| - 1]), rounds[|rounds| - 1])
  }

  /** One round of the supervisor on the limiter object. */
  method CheckAndRestart(limiter: RestartLimiter, r: Round, ghost p: Process) returns (ghost after: Process)
    requires limiter.max == MAX_RESTARTS && limiter.timestamps == p.kept
    modifies limiter
    ensures after == Supervise(p, r) && limiter.timestamps == after.kept
  {
    var ok := limiter.CanRestart(r.checked);
    if ok && r.started {
      limiter.Record(r.recorded);
    }
    after := Supervise(p, r);
  }

  /** Each round is checked before it is recorded, and no round begins before the last one ended. */
  predicate InOrder(rounds: seq<Round>) {
    && (forall i | 0 <= i < |rounds| :: rounds[i].checked <= rounds[i].recorded)
    && (forall i, j | 0 <= i < j < |rounds| :: rounds[i].recorded <= rounds[j].checked)
  }

  lemma {:induction false} PrunedIsSuffix(times: seq<real>, cutoff: real) returns (n: nat)
    ensures n <= |times| && Pruned(times, cutoff) == times[n..]
    ensures forall i | 0 <= i < n :: times[i] < cutoff
    ensures n < |times| ==> times[n] >= cutoff
    decreases |times|
  {
    if times != [] && times[0] < cutoff {
      n := PrunedIsSuffix(times[1..], cutoff);
      assert times[n + 1..] == times[1..][n..];
      n := n + 1;
    } else {
      n := 0;
    }
  }

  /** The records are in order, and any six in a row span more than the window. */
  predicate Spaced(history: seq<real>) {
    && (forall i, j | 0 <= i < j < |history| :: history[i] <= history[j])
    && (forall i | 0 <= i < |history| - MAX_RESTARTS :: history[i + MAX_RESTARTS] - history[i] > WINDOW)
  }

  /** What is kept is the end of the history, and the rest is older than the window at the last moment. */
  ghost predicate Remembers(p: Process, now: real) {
    && |p.kept| <= |p.history|
    && p.kept == p.history[|p.history| - |p.kept|..]
    && (forall i | 0 <= i < |p.history| - |p.kept| :: p.history[i] < now - WINDOW)
    && (forall i | 0 <= i < |p.history| :: p.history[i] <= now)
  }

  /** A check at a later moment forgets only what is older than the window then. */
  lemma CheckKeeps(p: Process, before: real, checked: real)
    requires Remembers(p, before) && before <= checked
    ensures Remembers(p.(kept := Pruned(p.kept, checked - WINDOW)), checked)
  {
    var n := PrunedIsSuffix(p.kept, checked - WINDOW);
    var kept := Pruned(p.kept, checked - WINDOW);
    var start := |p.history| - |p.kept|;
    assert kept == p.history[start + n..];
    forall i | 0 <= i < |p.history| - |kept| ensures p.history[i] < checked - WINDOW {
      if i >= start { assert p.history[i] == p.kept[i - start]; }
    }
  }

  /** Recording with fewer than the maximum kept: the sixth last record is a forgotten one. */
  lemma RecordKeeps(p: Process, checked: real, recorded: real)
    requires Spaced(p.history) && Remembers(p, checked) && checked <= recorded && |p.kept| < MAX_RESTARTS
    ensures Spaced(p.history + [recorded]) && Remembers(Process(p.kept + [recorded], p.history + [recorded]), recorded)
  {
    var after := p.history + [recorded];
    var start := |p.history| - |p.kept|;
    assert p.kept + [recorded] == after[start..];
    forall i | 0 <= i < |after| - MAX_RESTARTS ensures after[i + MAX_RESTARTS] - after[i] > WINDOW {
      if i + MAX_RESTARTS == |p.history| {
        assert p.history[i] < checked - WINDOW;
      } else {
        assert p.history[i + MAX_RESTARTS] - p.history[i] > WINDOW;
      }
    }
  }

  lemma RoundKeeps(p: Process, before: real, r: Round)
    requires Spaced(p.history) && Remembers(p, before) && before <= r.checked <= r.recorded
    ensures Spaced(Supervise(p, r).history) && Remembers(Supervise(p, r), r.recorded)
  {
    var checked := p.(kept := Pruned(p.kept, r.checked - WINDOW));
    CheckKeeps(p, before, r.checked);
    if |checked.kept| < MAX_RESTARTS && r.started {
      RecordKeeps(checked, r.checked, r.recorded);
      assert Supervise(p, r) == Process(checked.kept + [r.recorded], checked.history + [r.recorded]);
    } else {
      LaterRemembers(checked, r.checked, r.recorded);
      assert Supervise(p, r) == checked;
    }
  }

  lemma LaterRemembers(p: Process, before: real, now: real)
    requires Remembers(p, before) && before <= now
    ensures Remembers(p, now)
  {
    forall i | 0 <= i < |p.history| - |p.kept| ensures p.history[i] < now - WINDOW {
      assert p.history[i] < before - WINDOW;
    }
  }

  lemma {:induction false} RunKeeps(rounds: seq<Round>)
    requires InOrder(rounds)
    ensures Spaced(Run(rounds).history)
    ensures rounds == [] ==> Run(rounds).history == [] && Run(rounds).kept == []
    ensures rounds != [] ==> Remembers(Run(rounds), rounds[|rounds| - 1].recorded)
    decreases |rounds|
  {
    if rounds != [] {
      var n := |rounds| - 1;
      RunKeeps(rounds[..n]);
      if n == 0 {
        RoundKeeps(Process([], []), rounds[0].checked, rounds[0]);
      } else {
        RoundKeeps(Run(rounds[..n]), rounds[n - 1].recorded, rounds[n]);
      }
    }
  }

  /** The recorded restarts in a closed interval. */
  function Within(history: seq<real>, from: real, to: real): set<int> {
    set i | 0 <= i < |history| && from <= history[i] <= to
  }

  lemma {:induction false} SpanSize(low: int, high: int, s: set<int>)
    requires low <= high && forall i :: i in s ==> low <= i < high
    ensures |s| <= high - low
    decreases high - low
  {
    if low == high {
      assert s == {};
    } else {
      SpanSize(low, high - 1, s - {high - 1});
    }
  }

  /**
   Over the whole life of a supervised process, no closed window of sixty seconds contains more than five
   recorded restarts, although records are made after the check and old ones are forgotten.
   */
  lemma AtMostFivePerWindow(rounds: seq<Round>, from: real)
    requires InOrder(rounds)
    ensures |Within(Run(rounds).history, from, from + WINDOW)| <= MAX_RESTARTS
  {
    RunKeeps(rounds);
    var h := Run(rounds).history;
    var s := Within(h, from, from + WINDOW);
    if s != {} {
      var first := Least(s);
      forall i | i in s ensures first <= i < first + MAX_RESTARTS {
        if i >= first + MAX_RESTARTS {
          FarApart(h, first, i);
        }
      }
      SpanSize(first, first + MAX_RESTARTS, s);
    }
  }

  lemma FarApart(h: seq<real>, i: nat, j: nat)
    requires Spaced(h) && i + MAX_RESTARTS <= j < |h|
    ensures h[j] > h[i] + WINDOW
  {
    assert h[i + MAX_RESTARTS] - h[i] > WINDOW;
  }

  lemma {:induction false} Least(s: set<int>) returns (m: int)
    requires s != {}
    ensures m in s && forall i :: i in s ==> m <= i
    decreases s
  {
    assert (forall i :: i !in s) ==> s == {};
    var x :| x in s;
    var rest := s - {x};
    m := x;
    if rest != {} {
      var k := Least(rest);
      if k < x { m := k; }
    }
    forall i | i in s ensures m <= i {
      if i != x { assert i in rest; }
    }
  }

  // ---------------------------------------------------------------------------------------------
  // When a restart is allowed
  // ---------------------------------------------------------------------------------------------

  lemma {:induction false} IntervalSize(low: int, high: int, s: set<int>)
    requires low <= high && forall i :: i in s <==> low <= i < high
    ensures |s| == high - low
    decreases high - low
  {
    if low == high {
      assert (forall i :: i !in s) ==> s == {};
    } else {
      IntervalSize(low, high - 1, s - {high - 1});
    }
  }

  /** The records before position m are too old, those from m on are not. */
  predicate SplitAt(history: seq<real>, cutoff: real, m: nat) {
    && m <= |history|
    && (forall i | 0 <= i < m :: history[i] < cutoff)
    && (forall i | m <= i < |history| :: history[i] >= cutoff)
  }

  lemma SplitCounts(history: seq<real>, cutoff: real, m: nat, now: real)
    requires SplitAt(history, cutoff, m) && forall i | 0 <= i < |history| :: history[i] <= now
    ensures |Within(history, cutoff, now)| == |history| - m
  {
    IntervalSize(m, |history|, Within(history, cutoff, now));
  }

  /** A check forgets exactly the records before the window. */
  lemma CheckSplits(p: Process, before: real, checked: real)
    requires Spaced(p.history) && Remembers(p, before) && before <= checked
    ensures |Pruned(p.kept, checked - WINDOW)| <= |p.history|
    ensures SplitAt(p.history, checked - WINDOW, |p.history| - |Pruned(p.kept, checked - WINDOW)|)
  {
    var n := PrunedIsSuffix(p.kept, checked - WINDOW);
    var start := |p.history| - |p.kept|;
    CheckKeeps(p, before, checked);
    forall i | start + n <= i < |p.history| ensures p.history[i] >= checked - WINDOW {
      assert p.history[start + n] == p.kept[n];
      assert p.history[start + n] <= p.history[i];
    }
  }

  /** So it allows a restart exactly if fewer than five records lie in the window. */
  lemma SupervisesIff(p: Process, before: real, r: Round)
    requires Spaced(p.history) && Remembers(p, before) && before <= r.checked
    ensures Supervise(p, r).history ==
            if r.started && |Within(p.history, r.checked - 60.0, r.checked)| < 5 then p.history + [r.recorded] else p.history
  {
    CheckSplits(p, before, r.checked);
    LaterRemembers(p, before, r.checked);
    SplitCounts(p.history, r.checked - WINDOW, |p.history| - |Pruned(p.kept, r.checked - WINDOW)|, r.checked);
  }

  /**
   In every life of a process: a round restarts it if and only if its start succeeds and fewer than five
   restarts were recorded in the sixty seconds up to the check. So a process is never given up for good.
   */
  lemma RestartsIff(rounds: seq<Round>, r: Round)
    requires InOrder(rounds + [r])
    ensures Run(rounds + [r]).history ==
            if r.started && |Within(Run(rounds).history, r.checked - 60.0, r.checked)| < 5
            then Run(rounds).history + [r.recorded] else Run(rounds).history
  {
    var n := |rounds|;
    assert (rounds + [r])[..n] == rounds && (rounds + [r])[n] == r;
    assert forall i | 0 <= i < n :: (rounds + [r])[i] == rounds[i];
    RunKeeps(rounds);
    SupervisesIff(Run(rounds), if n == 0 then r.checked else rounds[n - 1].recorded, r);
  }
}
