/** The hit limiter of the analytics tracker: twenty tokens, refilled by rounded elapsed time.
    The clock is an input of every hit. */
module TokenBucket {

  const CAPACITY: int := 20

  /** tokens is "_to", last is "_ti" (0 when unset), hits is "_hc". */
  datatype Bucket = Bucket(tokens: int, last: int, hits: int)

  const FRESH := Bucket(CAPACITY, 0, 0)

  /** Transactions and items are not limited. */
  datatype Hit = Hit(limited: bool, now: int)

  /** `Math.round` */
  function Round(x: real): int { (x + 0.5).Floor }

  function Refill(elapsed: int): int { Round(2.0 * elapsed as real / 1000.0) }

  /** The tokens on hand once the elapsed time is paid out. */
  function Available(b: Bucket, now: int): int {
    var e := Refill(now - b.last);
    if e > 0 then Min(b.tokens + e, CAPACITY) else b.tokens
  }

  predicate Passes(b: Bucket, h: Hit) { !h.limited || Available(b, h.now) > 0 }

  function Min(x: int, y: int): int { if x <= y then x else y }

  function Next(b: Bucket, h: Hit): Bucket {
    if !h.limited then b.(hits := b.hits + 1)
    else
      var e := Refill(h.now - b.last);
      var last := if e > 0 || b.last == 0 then h.now else b.last;
      var c := Available(b, h.now);
      if c <= 0 then Bucket(b.tokens, last, b.hits) else Bucket(c - 1, last, b.hits + 1)
  }

  function Run(b: Bucket, hits: seq<Hit>): Bucket
    decreases |hits|
  {
    if hits == [] then b else Run(Next(b, hits[0]), hits[1..])
  }

  /** How many limited hits get through. */
  function Passed(b: Bucket, hits: seq<Hit>): nat
    decreases |hits|
  {
    if hits == [] then 0
    else (if hits[0].limited && Passes(b, hits[0]) then 1 else 0) + Passed(Next(b, hits[0]), hits[1..])
  }

  /** How many hits of either kind get through. */
  function Through(b: Bucket, hits: seq<Hit>): nat
    decreases |hits|
  {
    if hits == [] then 0 else (if Passes(b, hits[0]) then 1 else 0) + Through(Next(b, hits[0]), hits[1..])
  }

  /** Over every run the counter of hits grows by the hits that get through, and by no aborted one. */
  lemma {:induction false} CountsWhatPasses(b: Bucket, hits: seq<Hit>)
    ensures Run(b, hits).hits == b.hits + Through(b, hits)
    decreases |hits|
  {
    if hits != [] {
      CountsWhatPasses(Next(b, hits[0]), hits[1..]);
    }
  }

  ghost predicate OnClock(start: int, hits: seq<Hit>) {
    && (forall i :: 0 <= i < |hits| ==> start <= hits[i].now)
    && forall i, j :: 0 <= i < j < |hits| ==> hits[i].now <= hits[j].now
  }

  /** What holds at time `now` of every bucket the code can reach from a fresh one. */
  ghost predicate Reachable(b: Bucket, now: int) {
    0 <= b.tokens <= CAPACITY && 0 <= b.last <= now && (b.tokens == CAPACITY ==> b.last == 0)
  }

  // ----- the refill arithmetic -----

  lemma RefillIsDivision(elapsed: int)
    ensures Refill(elapsed) == (elapsed + 250) / 500
  {
    var q := (elapsed + 250) / 500;
    var r := 2.0 * elapsed as real / 1000.0 + 0.5;
    assert q * 500 <= elapsed + 250 < (q + 1) * 500;
    assert r * 500.0 == (elapsed + 250) as real;
    assert q as real <= r < (q + 1) as real;
  }

  /** Rounding never pays out more than one token per quarter second. */
  lemma RefillRate(elapsed: int)
    ensures Refill(elapsed) > 0 <==> elapsed >= 250
    ensures elapsed >= 0 ==> 250 * Refill(elapsed) <= elapsed
  {
    RefillIsDivision(elapsed);
  }

  // ----- the bound -----

  lemma StepKeepsReachable(b: Bucket, h: Hit, now: int)
    requires Reachable(b, now) && now <= h.now
    ensures Reachable(Next(b, h), h.now)
    ensures h.limited ==> Next(b, h).tokens < CAPACITY
  {
    RefillRate(h.now - b.last);
  }

  /** A limited hit is aborted exactly when the bucket is empty and was refilled less than 250 ms ago. */
  lemma AbortsExactlyWhenDry(b: Bucket, h: Hit, now: int)
    requires Reachable(b, now) && now <= h.now
    ensures !Passes(b, h) <==> h.limited && b.tokens == 0 && h.now - b.last < 250
  {
    RefillRate(h.now - b.last);
  }

  /** Tokens, time of last refill and passes trade against each other. */
  lemma StepPotential(b: Bucket, h: Hit, now: int)
    requires Reachable(b, now) && now <= h.now
    ensures var b' := Next(b, h);
            250 * (if h.limited && Passes(b, h) then 1 else 0) + 250 * b'.tokens - b'.last <= 250 * b.tokens - b.last
  {
    RefillRate(h.now - b.last);
  }

  lemma {:induction false} RunPotential(b: Bucket, hits: seq<Hit>, now: int)
    requires Reachable(b, now) && OnClock(now, hits)
    ensures 250 * Passed(b, hits) + 250 * Run(b, hits).tokens - Run(b, hits).last <= 250 * b.tokens - b.last
    ensures Reachable(Run(b, hits), if hits == [] then now else hits[|hits| - 1].now)
    decreases |hits|
  {
    if hits != [] {
      StepPotential(b, hits[0], now);
      StepKeepsReachable(b, hits[0], now);
      assert OnClock(hits[0].now, hits[1..]);
      RunPotential(Next(b, hits[0]), hits[1..], hits[0].now);
    }
  }

  /** From any limited hit on, in any run, at most 20 + T/250 limited hits pass within T milliseconds. */
  lemma {:induction false} WindowBound(b: Bucket, window: seq<Hit>, now: int)
    requires Reachable(b, now) && OnClock(now, window)
    requires window != [] && window[0].limited
    ensures 250 * Passed(b, window) <= 250 * CAPACITY + (window[|window| - 1].now - window[0].now)
  {
    var h := window[0];
    var b' := Next(b, h);
    RefillRate(h.now - b.last);
    StepKeepsReachable(b, h, now);
    assert OnClock(h.now, window[1..]);
    RunPotential(b', window[1..], h.now);
    if b'.last == h.now {
      assert 250 * Passed(b', window[1..]) <= 250 * b'.tokens + Run(b', window[1..]).last - h.now;
    } else {
      assert b.tokens < CAPACITY && b'.last == b.last > h.now - 250;
    }
  }

  /** The same bound read off a whole run: the window may start after any prefix. */
  lemma {:induction false} RateLimit(hits: seq<Hit>, i: nat, j: nat)
    requires OnClock(0, hits)
    requires i < j <= |hits| && hits[i].limited
    ensures 250 * Passed(Run(FRESH, hits[..i]), hits[i..j]) <= 250 * CAPACITY + (hits[j - 1].now - hits[i].now)
    ensures 0 <= Run(FRESH, hits[..j]).tokens <= CAPACITY
  {
    hide Run, Passed, Next;
    RunPotential(FRESH, hits[..i], 0);
    RunPotential(FRESH, hits[..j], 0);
    var now := if i == 0 then 0 else hits[i - 1].now;
    WindowBound(Run(FRESH, hits[..i]), hits[i..j], now);
  }

  /** Rounding lets a hit through every 250 ms for ever, twice the nominal two per second. */
  lemma {:induction false} QuarterSecondsAlwaysPass(b: Bucket, hits: seq<Hit>, now: int)
    requires Reachable(b, now) && b.last == now > 0
    requires forall k :: 0 <= k < |hits| ==> hits[k] == Hit(true, now + 250 * (k + 1))
    ensures Passed(b, hits) == |hits|
    decreases |hits|
  {
    if hits != [] {
      RefillRate(250);
      StepKeepsReachable(b, hits[0], now);
      assert forall k :: 0 <= k < |hits| - 1 ==> hits[1..][k] == hits[k + 1];
      QuarterSecondsAlwaysPass(Next(b, hits[0]), hits[1..], now + 250);
    }
  }

  lemma {:induction false} PassedAppend(b: Bucket, x: seq<Hit>, y: seq<Hit>)
    ensures Passed(b, x + y) == Passed(b, x) + Passed(Run(b, x), y)
    decreases |x|
  {
    hide Next, Passes;
    if x == [] {
      assert x + y == y;
    } else {
      assert (x + y)[1..] == x[1..] + y;
      PassedAppend(Next(b, x[0]), x[1..], y);
    }
  }

  /** n limited hits at one moment. */
  function Burst(n: nat, now: int): seq<Hit> { seq(n, i => Hit(true, now)) }

  /** n limited hits, one every 250 ms. */
  function Trickle(n: nat, now: int): seq<Hit> { seq(n, i => Hit(true, now + 250 * (i + 1))) }

  /** Stored tokens can all be spent at one moment. */
  lemma {:induction false} BurstPasses(b: Bucket, n: nat)
    requires b.tokens == n && b.last > 0
    ensures Passed(b, Burst(n, b.last)) == n
    ensures Run(b, Burst(n, b.last)).tokens == 0 && Run(b, Burst(n, b.last)).last == b.last
    decreases n
  {
    if n > 0 {
      RefillRate(0);
      var hits := Burst(n, b.last);
      assert hits[1..] == Burst(n - 1, b.last);
      BurstPasses(Next(b, hits[0]), n - 1);
    }
  }

  /** The bound is reached: from a fresh bucket, 20 hits at one moment and one more every 250 ms all pass, which is
      20 + T/250 of them within T milliseconds. */
  lemma BoundIsReached(now: int, n: nat)
    requires now > 0
    ensures var hits := Burst(20, now) + Trickle(n, now);
      && OnClock(now, hits) && hits[|hits| - 1].now - hits[0].now == 250 * n
      && 250 * Passed(FRESH, hits) == 250 * CAPACITY + (hits[|hits| - 1].now - hits[0].now)
  {
    var first := Hit(true, now);
    var b := Next(FRESH, first);
    RefillRate(now);
    assert b == Bucket(19, now, 1);
    BurstPasses(b, 19);
    assert Burst(20, now)[1..] == Burst(19, now);
    var dry := Run(FRESH, Burst(20, now));
    assert dry == Run(b, Burst(19, now)) && Passed(FRESH, Burst(20, now)) == 20;
    QuarterSecondsAlwaysPass(dry, Trickle(n, now), now);
    PassedAppend(FRESH, Burst(20, now), Trickle(n, now));
  }

  // ----- the code -----

  /** What a hit at `h.now` may count on: the answer, and the trade between tokens, time and passes. */
  ghost predicate Fair(before: Bucket, h: Hit, ok: bool, after: Bucket) {
    && (ok <==> !(h.limited && before.tokens == 0 && h.now - before.last < 250))
    && 0 <= after.tokens <= CAPACITY && after.last <= h.now
    && 250 * (if h.limited && ok then 1 else 0) + 250 * after.tokens - after.last
       <= 250 * before.tokens - before.last
  }

  class Limiter {
    var tokens: int
    var last: int
    var hits: int

    function State(): Bucket
      reads this
    {
      Bucket(tokens, last, hits)
    }

    constructor ()
      ensures State() == FRESH
    {
      tokens, last, hits := 20, 0, 0;
    }

    /** The task that may throw "abort"; ok is false where it throws. */
    method LimitHit(h: Hit) returns (ok: bool)
      modifies this
      ensures ok == Passes(old(State()), h)
      ensures State() == Next(old(State()), h)
      ensures Reachable(old(State()), h.now) ==> Fair(old(State()), h, ok, State()) && Reachable(State(), h.now)
    {
      if Reachable(State(), h.now) {
        AbortsExactlyWhenDry(State(), h, h.now);
        StepPotential(State(), h, h.now);
        StepKeepsReachable(State(), h, h.now);
      }
      var b := hits;
      if h.limited {
        var c := tokens;
        var d := h.now;
        var e := last;
        if 0 == e {
          last := d;
        }
        e := Round(2.0 * (d - e) as real / 1000.0);
        if 0 < e {
          c := Min(c + e, 20);
          last := d;
        }
        if 0 >= c {
          return false;
        }
        c := c - 1;
        tokens := c;
      }
      b := b + 1;
      hits := b;
      return true;
    }
  }
}
