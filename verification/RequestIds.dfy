/**
 Request ids: a microsecond timestamp, a counter of at least four digits for ids of the same
 microsecond, and eight characters that are random in the source.
 */
module RequestIds {

  function Digit(d: nat): char
    requires d < 10
  {
    ['0', '1', '2', '3', '4', '5', '6', '7', '8', '9'][d]
  }

  function Decimal(n: nat): (s: string)
    ensures s != []
  {
    if n < 10 then [Digit(n)] else Decimal(n / 10) + [Digit(n % 10)]
  }

  function Zeros(n: nat): (s: string)
    ensures |s| == n
  {
    seq(n, _ => '0')
  }

  /** At least four digits, filled up with zeros from the left. */
  function Padded(n: nat): string {
    var s := Decimal(n);
    if |s| < 4 then Zeros(4 - |s|) + s else s
  }

  function Id(timestamp: nat, counter: nat, suffix: string): string {
    Decimal(timestamp) + Padded(counter) + suffix
  }

  /** The value of a digit string. */
  function Value(s: string): int {
    if s == [] then 0 else 10 * Value(s[..|s| - 1]) + (s[|s| - 1] as int - '0' as int)
  }

  lemma {:induction false} DecimalValue(n: nat)
    ensures Value(Decimal(n)) == n
  {
    if n >= 10 {
      DecimalValue(n / 10);
      assert Decimal(n)[..|Decimal(n)| - 1] == Decimal(n / 10);
    }
  }

  lemma {:induction false} ZerosValue(k: nat, s: string)
    ensures Value(Zeros(k) + s) == Value(s)
    decreases |s| + k
  {
    if s != [] {
      assert (Zeros(k) + s)[..|Zeros(k) + s| - 1] == Zeros(k) + s[..|s| - 1];
      ZerosValue(k, s[..|s| - 1]);
    } else if k > 0 {
      assert Zeros(k) + s == Zeros(k);
      assert Zeros(k)[..k - 1] == Zeros(k - 1) + [];
      ZerosValue(k - 1, []);
    }
  }

  lemma PaddedValue(n: nat)
    ensures Value(Padded(n)) == n
  {
    DecimalValue(n);
    if |Decimal(n)| < 4 { ZerosValue(4 - |Decimal(n)|, Decimal(n)); }
  }

  /**
   Timestamps of equal width and suffixes of equal length leave no overlap between the parts: two ids are
   equal only if all three parts are, whatever the widths of the counters.
   */
  lemma PartsAreUnique(t: nat, c: nat, x: string, u: nat, d: nat, y: string)
    requires |Decimal(t)| == |Decimal(u)| && |x| == |y|
    ensures Id(t, c, x) == Id(u, d, y) <==> t == u && c == d && x == y
  {
    if Id(t, c, x) == Id(u, d, y) {
      var a, b := Id(t, c, x), Id(u, d, y);
      var n := |Decimal(t)|;
      assert |a| == n + |Padded(c)| + |x| && |b| == n + |Padded(d)| + |y|;
      assert Decimal(t) == a[..n] && Decimal(u) == b[..n];
      assert Padded(c) == a[n..n + |Padded(c)|] && Padded(d) == b[n..n + |Padded(d)|];
      assert x == a[n + |Padded(c)|..] && y == b[n + |Padded(d)|..];
      DecimalValue(t);
      DecimalValue(u);
      PaddedValue(c);
      PaddedValue(d);
    }
  }

  // ---------------------------------------------------------------------------------------------
  // Numbering over time
  // ---------------------------------------------------------------------------------------------

  datatype Clock = Clock(last: nat, counter: nat)

  const START := Clock(0, 0)

  function Tick(c: Clock, now: nat): Clock {
    if now == c.last then c.(counter := c.counter + 1) else Clock(now, 0)
  }

  /** The state after the first `n` requests. */
  function After(c: Clock, times: seq<nat>): Clock {
    if times == [] then c else Tick(After(c, times[..|times| - 1]), times[|times| - 1])
  }

  predicate NonDecreasing(times: seq<nat>) {
    forall i, j | 0 <= i < j < |times| :: times[i] <= times[j]
  }

  /** Later requests have a larger timestamp, or the same one and a larger counter. */
  lemma {:induction false} CountsUp(times: seq<nat>, i: nat)
    requires NonDecreasing(times) && i < |times| - 1
    ensures var a, b := After(START, times[..i + 1]), After(START, times);
            a.last < b.last || (a.last == b.last && a.counter < b.counter)
    decreases |times|
  {
    var m := |times| - 1;
    var before := times[..m];
    if i + 1 < m {
      CountsUp(before, i);
      assert before[..i + 1] == times[..i + 1];
    } else {
      assert before == times[..i + 1];
    }
    LastIsLatest(before);
  }

  lemma LastIsLatest(times: seq<nat>)
    requires times != []
    ensures After(START, times).last == times[|times| - 1]
  {
  }

  /**
   While the clock does not go backwards, and its readings have the same number of digits, no two
   requests get the same id, whatever the random parts are and however many share a microsecond.
   */
  lemma IdsAreUnique(times: seq<nat>, i: nat, j: nat, x: string, y: string)
    requires NonDecreasing(times) && i < j < |times| && |x| == |y| == 8
    requires |Decimal(times[i])| == |Decimal(times[j])|
    ensures var a, b := After(START, times[..i + 1]), After(START, times[..j + 1]);
            Id(a.last, a.counter, x) != Id(b.last, b.counter, y)
  {
    CountsUp(times[..j + 1], i);
    assert times[..j + 1][..i + 1] == times[..i + 1];
    LastIsLatest(times[..i + 1]);
    LastIsLatest(times[..j + 1]);
    var a, b := After(START, times[..i + 1]), After(START, times[..j + 1]);
    PartsAreUnique(a.last, a.counter, x, b.last, b.counter, y);
  }

  // ---------------------------------------------------------------------------------------------
  // A clock that steps back
  // ---------------------------------------------------------------------------------------------

  /** Equal readings stand together. */
  predicate Contiguous(times: seq<nat>) {
    forall i, j, k | 0 <= i < j < k < |times| :: times[i] == times[k] ==> times[j] == times[i]
  }

  /** The first position of the run of equal readings that ends here. */
  function RunStart(times: seq<nat>, n: nat): (s: nat)
    requires n < |times|
    ensures s <= n && forall j | s <= j <= n :: times[j] == times[n]
    ensures s > 0 ==> times[s - 1] != times[s]
  {
    if n > 0 && times[n - 1] == times[n] then RunStart(times, n - 1) else n
  }

  /** The counter is the position in the run, the initial zero counted as a reading. */
  lemma {:induction false} CounterIsPosition(times: seq<nat>, n: nat)
    requires n <= |times|
    ensures var all := [0] + times;
            After(START, times[..n]) == Clock(all[n], n - RunStart(all, n))
    decreases n
  {
    var all := [0] + times;
    if n == 0 {
      assert times[..0] == [];
    } else {
      CounterIsPosition(times, n - 1);
      assert times[..n][..n - 1] == times[..n - 1];
      assert all[n] == times[n - 1];
    }
  }

  /** The numbers of two requests differ. */
  predicate Differ(times: seq<nat>, i: nat, j: nat)
    requires i <= |times| && j <= |times|
  {
    After(START, times[..i]) != After(START, times[..j])
  }

  /** A run that goes on has the same start. */
  lemma {:induction false} RunExtends(times: seq<nat>, i: nat, j: nat)
    requires i <= j < |times| && forall k | i <= k <= j :: times[k] == times[i]
    ensures RunStart(times, j) == RunStart(times, i)
    decreases j - i
  {
    if i < j { RunExtends(times, i, j - 1); }
  }

  /** Positions of one run have different numbers. */
  lemma OneRunDiffers(times: seq<nat>, i: nat, j: nat)
    requires i < j <= |times|
    requires var all := [0] + times; all[i] == all[j] ==> forall k | i <= k <= j :: all[k] == all[i]
    ensures Differ(times, i, j)
  {
    var all := [0] + times;
    CounterIsPosition(times, i);
    CounterIsPosition(times, j);
    if all[i] == all[j] { RunExtends(all, i, j); }
  }

  /** A run starts after every different reading before it. */
  lemma StartsAfter(times: seq<nat>, n: nat, b: nat)
    requires b < n < |times| && times[b] != times[n]
    ensures b < RunStart(times, n)
  {
  }

  /** Two runs of one reading start with the same number. */
  lemma RunsRepeat(times: seq<nat>, a: nat, b: nat, c: nat)
    requires var all := [0] + times; a < b < c < |all| && all[a] == all[c] && all[b] != all[a]
    ensures var all := [0] + times;
            RunStart(all, a) < RunStart(all, c) && !Differ(times, RunStart(all, a), RunStart(all, c))
  {
    var all := [0] + times;
    var s, t := RunStart(all, a), RunStart(all, c);
    assert all[s] == all[t];
    StartsAfter(all, c, b);
    StartOfStart(all, a);
    StartOfStart(all, c);
    CounterIsPosition(times, s);
    CounterIsPosition(times, t);
  }

  lemma {:induction false} StartOfStart(times: seq<nat>, n: nat)
    requires n < |times|
    ensures RunStart(times, RunStart(times, n)) == RunStart(times, n)
  {
    RunExtends(times, RunStart(times, n), n);
  }

  /**
   The pairs of timestamp and counter are all different, the initial one included, if and only if equal
   readings stand together, the initial zero included.
   */
  lemma NumbersDifferIff(times: seq<nat>)
    ensures (forall i, j | 0 <= i < j <= |times| :: Differ(times, i, j)) <==> Contiguous([0] + times)
  {
    var all := [0] + times;
    if Contiguous(all) {
      forall i, j | 0 <= i < j <= |times| ensures Differ(times, i, j) {
        assert all[i] == all[j] ==> forall k | i <= k <= j :: all[k] == all[i];
        OneRunDiffers(times, i, j);
      }
    } else {
      var a, b, c :| 0 <= a < b < c < |all| && all[a] == all[c] && all[b] != all[a];
      RunsRepeat(times, a, b, c);
    }
  }

  /**
   For a clock that does not start at zero: the numbers of all requests are different if and only if equal
   readings stand together. A clock that steps back and reaches a reading again repeats a number, and only
   the random part tells the ids apart.
   */
  lemma RequestsDifferIff(times: seq<nat>)
    requires times != [] ==> times[0] != 0
    ensures (forall i, j | 1 <= i < j <= |times| :: Differ(times, i, j)) <==> Contiguous(times)
  {
    if Contiguous(times) {
      forall i, j | 1 <= i < j <= |times| ensures Differ(times, i, j) {
        LaterDiffers(times, i, j);
      }
    } else {
      var a, b, c :| 0 <= a < b < c < |times| && times[a] == times[c] && times[b] != times[a];
      LaterRepeats(times, a, b, c);
    }
  }

  lemma LaterDiffers(times: seq<nat>, i: nat, j: nat)
    requires Contiguous(times) && 1 <= i < j <= |times|
    ensures Differ(times, i, j)
  {
    var all := [0] + times;
    assert forall k | 1 <= k <= |times| :: all[k] == times[k - 1];
    forall k | i <= k <= j ensures all[i] == all[j] ==> all[k] == all[i] {
      if i < k < j && all[i] == all[j] { assert times[i - 1] == times[j - 1]; }
    }
    OneRunDiffers(times, i, j);
  }

  lemma LaterRepeats(times: seq<nat>, a: nat, b: nat, c: nat)
    requires a < b < c < |times| && times[a] == times[c] && times[b] != times[a] && times[0] != 0
    ensures exists i, j :: 1 <= i < j <= |times| && !Differ(times, i, j)
  {
    var all := [0] + times;
    RunsRepeat(times, a + 1, b + 1, c + 1);
    var i, j := RunStart(all, a + 1), RunStart(all, c + 1);
    assert all[0] == 0 && all[1] == times[0] && all[a + 1] == times[a];
    StartsAfter(all, a + 1, if times[a] == 0 then 1 else 0);
    assert 1 <= i < j <= |times| && !Differ(times, i, j);
  }

  /** The counter has four digits, and more only from ten thousand on. */
  lemma PaddedWidth(n: nat)
    ensures |Padded(n)| >= 4 && (|Padded(n)| == 4 <==> n < 10000)
  {
    DecimalWidth(n);
  }

  lemma DecimalWidth(n: nat)
    ensures |Decimal(n)| <= 4 <==> n < 10000
  {
    assert Decimal(n / 10) == if n / 10 < 10 then [Digit(n / 10)] else Decimal(n / 10 / 10) + [Digit(n / 10 % 10)];
    var a := n / 10;
    var b := a / 10;
    var d := b / 10;
    assert n < 10000 <==> d < 10;
  }
}
