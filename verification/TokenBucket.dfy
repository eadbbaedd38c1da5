/**
 The token bucket of the request rate limiter. Time is passed in and does not go backwards; rounding of
 floating point numbers is not modelled.
 */
module TokenBucket {

  datatype Bucket = Bucket(capacity: real, rate: real, tokens: real, last: real)

  datatype Call = Call(time: real, amount: real)

  function Min(a: real, b: real): real {
    if a <= b then a else b
  }

  function Refilled(b: Bucket, now: real): real {
    Min(b.capacity, b.tokens + Inflow(b.rate, now - b.last))
  }

  /** What flows in over a span of time. */
  function Inflow(rate: real, elapsed: real): real {
    elapsed * rate
  }

  predicate Granted(b: Bucket, c: Call) {
    Refilled(b, c.time) >= c.amount
  }

  function Consume(b: Bucket, c: Call): Bucket {
    b.(tokens := Refilled(b, c.time) - if Granted(b, c) then c.amount else 0.0, last := c.time)
  }

  function Truncated(x: real): int {
    if x >= 0.0 then x.Floor else -((-x).Floor)
  }

  class TokenBucket {
    const capacity: int
    const refillRate: real
    var tokens: real
    var lastRefill: real

    ghost function State(): Bucket
      reads this
    {
      Bucket(capacity as real, refillRate, tokens, lastRefill)
    }

    constructor (capacity: int, refillRate: real, now: real)
      ensures State() == Bucket(capacity as real, refillRate, capacity as real, now)
      ensures this.capacity == capacity
    {
      this.capacity := capacity;
      this.refillRate := refillRate;
      tokens := capacity as real;
      lastRefill := now;
    }

    method TryConsume(amount: real, now: real) returns (ok: bool)
      modifies this
      ensures ok <==> Granted(old(State()), Call(now, amount))
      ensures State() == Consume(old(State()), Call(now, amount))
    {
      var elapsed := now - lastRefill;
      tokens := Min(capacity as real, tokens + Inflow(refillRate, elapsed));
      lastRefill := now;
      if tokens >= amount {
        tokens := tokens - amount;
        return true;
      }
      ok := false;
    }

    method GetAvailableTokens(now: real) returns (available: int)
      ensures available == Truncated(Refilled(State(), now))
    {
      var elapsed := now - lastRefill;
      var level := Min(capacity as real, tokens + Inflow(refillRate, elapsed));
      available := Truncated(level);
    }
  }

  /** A whole number of tokens is granted exactly if no more than that many are reported as available. */
  lemma GrantedIffAvailable(b: Bucket, now: real, n: nat)
    requires Sound(b) && b.last <= now
    ensures Granted(b, Call(now, n as real)) <==> n <= Truncated(Refilled(b, now))
  {
    InflowGrows(b.rate, 0.0, now - b.last);
  }

  /** Truncation is towards zero: to the next whole number below a level, and above a negative one. */
  lemma TruncatesTowardsZero(x: real)
    ensures x >= 0.0 ==> 0.0 <= x - Truncated(x) as real < 1.0
    ensures x <= 0.0 ==> 0.0 <= Truncated(x) as real - x < 1.0
  {
  }

  /** The bucket of a limiter that allows `maxRequests` per window. */
  function ForWindow(maxRequests: nat, window: nat, now: real): Bucket
    requires window > 0
  {
    Bucket(maxRequests as real, maxRequests as real / window as real, maxRequests as real, now)
  }

  // ---------------------------------------------------------------------------------------------
  // Runs
  // ---------------------------------------------------------------------------------------------

  predicate Sound(b: Bucket) {
    b.rate >= 0.0 && 0.0 <= b.tokens <= b.capacity
  }

  /** Times do not decrease and amounts are not negative. */
  predicate Ordered(last: real, calls: seq<Call>)
    decreases |calls|
  {
    calls == [] || (last <= calls[0].time && calls[0].amount >= 0.0 && Ordered(calls[0].time, calls[1..]))
  }

  function After(b: Bucket, calls: seq<Call>): Bucket
    decreases |calls|
  {
    if calls == [] then b else After(Consume(b, calls[0]), calls[1..])
  }

  /** The tokens granted by calls in the closed interval. */
  function GrantedIn(b: Bucket, calls: seq<Call>, from: real, to: real): real
    decreases |calls|
  {
    if calls == [] then 0.0
    else
      (if Granted(b, calls[0]) && from <= calls[0].time <= to then calls[0].amount else 0.0)
      + GrantedIn(Consume(b, calls[0]), calls[1..], from, to)
  }

  lemma InflowAdds(rate: real, a: real, b: real)
    ensures Inflow(rate, a) + Inflow(rate, b) == Inflow(rate, a + b)
  {
  }

  lemma InflowGrows(rate: real, a: real, b: real)
    requires rate >= 0.0 && a <= b
    ensures Inflow(rate, a) <= Inflow(rate, b)
  {
    Product(rate, b - a);
    InflowAdds(rate, a, b - a);
  }

  lemma Product(a: real, b: real)
    requires a >= 0.0 && b >= 0.0
    ensures b * a >= 0.0
  {
  }

  lemma ConsumeIsSound(b: Bucket, c: Call)
    requires Sound(b) && b.last <= c.time && c.amount >= 0.0
    ensures Sound(Consume(b, c)) && 0.0 <= Refilled(b, c.time) <= b.capacity
    ensures Refilled(b, c.time) <= b.tokens + Inflow(b.rate, c.time - b.last)
  {
    InflowGrows(b.rate, 0.0, c.time - b.last);
  }

  /** In every run the level stays between zero and the capacity. */
  lemma {:induction false} LevelStaysInRange(b: Bucket, calls: seq<Call>)
    requires Sound(b) && Ordered(b.last, calls)
    ensures Sound(After(b, calls)) && After(b, calls).capacity == b.capacity && After(b, calls).rate == b.rate
    decreases |calls|
  {
    if calls != [] {
      ConsumeIsSound(b, calls[0]);
      LevelStaysInRange(Consume(b, calls[0]), calls[1..]);
    }
  }

  /** From any moment on, no more is granted than the level then and what flows in since. */
  lemma {:induction false} FlowBound(b: Bucket, calls: seq<Call>, from: real, to: real)
    requires Sound(b) && Ordered(b.last, calls) && b.last <= to
    ensures GrantedIn(b, calls, from, to) <= b.tokens + Inflow(b.rate, to - b.last)
    decreases |calls|
  {
    InflowGrows(b.rate, 0.0, to - b.last);
    if calls != [] {
      var next := Consume(b, calls[0]);
      ConsumeIsSound(b, calls[0]);
      if calls[0].time <= to {
        FlowBound(next, calls[1..], from, to);
        InflowAdds(b.rate, calls[0].time - b.last, to - calls[0].time);
      } else {
        NothingAfter(next, calls[1..], from, to);
      }
    }
  }

  lemma {:induction false} NothingAfter(b: Bucket, calls: seq<Call>, from: real, to: real)
    requires Ordered(b.last, calls) && to < b.last
    ensures GrantedIn(b, calls, from, to) == 0.0
    decreases |calls|
  {
    if calls != [] { NothingAfter(Consume(b, calls[0]), calls[1..], from, to); }
  }

  /**
   Over every run, the tokens granted between two moments never exceed the capacity and what flows in
   between them.
   */
  lemma {:induction false} GrantBound(b: Bucket, calls: seq<Call>, from: real, to: real)
    requires Sound(b) && Ordered(b.last, calls) && from <= to
    ensures GrantedIn(b, calls, from, to) <= b.capacity + Inflow(b.rate, to - from)
    decreases |calls|
  {
    InflowGrows(b.rate, 0.0, to - from);
    if calls != [] {
      var c := calls[0];
      var next := Consume(b, c);
      ConsumeIsSound(b, c);
      if c.time < from {
        GrantBound(next, calls[1..], from, to);
      } else if c.time <= to {
        FlowBound(next, calls[1..], from, to);
        InflowGrows(b.rate, to - c.time, to - from);
      } else {
        NothingAfter(next, calls[1..], from, to);
      }
    }
  }

  /** Any window of the configured length grants at most twice the configured number of requests. */
  lemma WindowBound(maxRequests: nat, window: nat, now: real, calls: seq<Call>, from: real)
    requires window > 0 && Ordered(now, calls)
    ensures GrantedIn(ForWindow(maxRequests, window, now), calls, from, from + window as real) <= 2.0 * maxRequests as real
  {
    var m, w := maxRequests as real, window as real;
    SpanOf(from, w);
    WindowInflow(m, w);
    WindowIsSound(maxRequests, window, now);
    GrantBound(ForWindow(maxRequests, window, now), calls, from, from + w);
  }

  lemma WindowIsSound(maxRequests: nat, window: nat, now: real)
    requires window > 0
    ensures Sound(ForWindow(maxRequests, window, now))
  {
  }

  lemma SpanOf(from: real, w: real)
    ensures from + w - from == w
  {
  }

  /** A window lets the configured number of requests flow in. */
  lemma WindowInflow(m: real, w: real)
    requires w > 0.0
    ensures Inflow(m / w, w) == m
  {
  }

  /** The bound is met: a full bucket drained at once, and again as it refills. */
  lemma BoundIsTight(maxRequests: nat, window: nat, now: real)
    requires window > 0
    ensures var w := window as real;
            var m := maxRequests as real;
            GrantedIn(ForWindow(maxRequests, window, now), [Call(now, m), Call(now + w, m)], now, now + w) == 2.0 * m
  {
    var m, w := maxRequests as real, window as real;
    var b := ForWindow(maxRequests, window, now);
    var first, second := Call(now, m), Call(now + w, m);
    assert Inflow(b.rate, now - now) == 0.0;
    SpanOf(now, w);
    WindowInflow(m, w);
    var next := Consume(b, first);
    assert Granted(b, first) && next == b.(tokens := 0.0);
    assert Granted(next, second);
    assert [first, second][1..] == [second] && [second][1..] == [];
    assert GrantedIn(next, [second], now, now + w) == m + GrantedIn(Consume(next, second), [], now, now + w);
  }

  // ---------------------------------------------------------------------------------------------
  // What a call costs
  // ---------------------------------------------------------------------------------------------

  /** Refilling in two steps is refilling at once. */
  lemma RefillComposes(b: Bucket, middle: real, now: real)
    requires Sound(b) && b.last <= middle <= now
    ensures Refilled(b.(tokens := Refilled(b, middle), last := middle), now) == Refilled(b, now)
  {
    InflowAdds(b.rate, middle - b.last, now - middle);
    InflowGrows(b.rate, 0.0, middle - b.last);
    InflowGrows(b.rate, 0.0, now - middle);
    SpanAdds(b.last, middle, now);
  }

  lemma SpanAdds(a: real, b: real, c: real)
    ensures (b - a) + (c - b) == c - a
  {
  }

  /** A refused call costs nothing: at every later moment the level is what it would have been without it. */
  lemma RefusedCostsNothing(b: Bucket, c: Call, now: real)
    requires Sound(b) && b.last <= c.time <= now && !Granted(b, c)
    ensures Refilled(Consume(b, c), now) == Refilled(b, now)
  {
    RefillComposes(b, c.time, now);
    assert Consume(b, c) == b.(tokens := Refilled(b, c.time), last := c.time);
  }

  /** A granted call costs its amount, and is granted exactly if the level covers it. */
  lemma GrantedCostsItsAmount(b: Bucket, c: Call)
    requires Sound(b) && b.last <= c.time
    ensures Granted(b, c) <==> c.amount <= Refilled(b, c.time)
    ensures Granted(b, c) ==> Refilled(Consume(b, c), c.time) == Refilled(b, c.time) - c.amount || c.amount < 0.0
    ensures Refilled(b, c.time) == b.capacity || Refilled(b, c.time) == b.tokens + (c.time - b.last) * b.rate
  {
    assert Inflow(b.rate, c.time - c.time) == 0.0;
  }
}
