/** The token bucket in front of provider calls: how many permits any stretch of time can see,
    and that waiting ends (internal/ratelimit/ratelimit.go). Times are in seconds. */
module TokenBucket {

  /** last is meaningful once the bucket has been used. */
  datatype Bucket = Bucket(max: real, refill: real, tokens: real, used: bool, last: real)

  ghost predicate Valid(b: Bucket) {
    1.0 <= b.max && 0.0 < b.refill && 0.0 <= b.tokens <= b.max
  }

  function New(requestsPerMinute: int): (b: Bucket)
    ensures Valid(b)
  {
    var rpm := if requestsPerMinute <= 0 then 60 else requestsPerMinute;
    Bucket(rpm as real, rpm as real / 60.0, rpm as real, false, 0.0)
  }

  function Min(a: real, b: real): real {
    if a <= b then a else b
  }

  /** What flows in over a stretch of time. */
  function Inflow(refill: real, from: real, to: real): real {
    (to - from) * refill
  }

  lemma InflowAdds(refill: real, a: real, b: real, c: real)
    ensures Inflow(refill, a, c) == Inflow(refill, a, b) + Inflow(refill, b, c)
  {
  }

  lemma InflowGrows(refill: real, a: real, b: real)
    requires 0.0 <= refill && a <= b
    ensures 0.0 <= Inflow(refill, a, b)
  {
  }

  /** Refills by gain, then takes a token if there is one. */
  function Turn(max: real, tokens: real, gain: real): (real, bool) {
    var t := Min(max, tokens + gain);
    if t >= 1.0 then (t - 1.0, true) else (t, false)
  }

  function Gain(b: Bucket, now: real): real {
    if b.used then Inflow(b.refill, b.last, now) else 0.0
  }

  /** One pass through Wait's critical section. */
  function Pass(b: Bucket, now: real): (Bucket, bool) {
    var (t, granted) := Turn(b.max, b.tokens, Gain(b, now));
    (b.(tokens := t, used := true, last := now), granted)
  }

  predicate NotBefore(b: Bucket, now: real) {
    b.used ==> b.last <= now
  }

  lemma PassStaysValid(b: Bucket, now: real)
    requires Valid(b) && NotBefore(b, now)
    ensures Valid(Pass(b, now).0) && NotBefore(Pass(b, now).0, now)
    ensures Pass(b, now).0.max == b.max && Pass(b, now).0.refill == b.refill
  {
    if b.used {
      InflowGrows(b.refill, b.last, now);
    }
  }

  // ----- turns with given gains -----

  /** What is in a full bucket after n turns. */
  function Left(max: real, gains: seq<real>, n: nat): real
    requires n <= |gains|
  {
    if n == 0 then max else Turn(max, Left(max, gains, n - 1), gains[n - 1]).0
  }

  predicate Grants(max: real, gains: seq<real>, n: nat)
    requires n < |gains|
  {
    Turn(max, Left(max, gains, n), gains[n]).1
  }

  /** Permits given in turns i to j - 1. */
  function GrantCount(max: real, gains: seq<real>, i: nat, j: nat): nat
    requires i <= j <= |gains|
  {
    if i == j then 0 else GrantCount(max, gains, i, j - 1) + if Grants(max, gains, j - 1) then 1 else 0
  }

  function Sum(gains: seq<real>, i: nat, j: nat): real
    requires i <= j <= |gains|
  {
    if i == j then 0.0 else Sum(gains, i, j - 1) + gains[j - 1]
  }

  /** Permits plus what is left never exceed a full bucket plus what flowed in after the first of
      the turns. */
  lemma {:induction false} Budget(max: real, gains: seq<real>, i: nat, j: nat)
    requires i < j <= |gains|
    ensures GrantCount(max, gains, i, j) as real + Left(max, gains, j) <= max + Sum(gains, i + 1, j)
  {
    if j > i + 1 {
      Budget(max, gains, i, j - 1);
    } else {
      assert GrantCount(max, gains, i, i) == 0;
    }
  }

  // ----- any interleaving of callers, as the sequence of their turns -----

  ghost predicate Ordered(times: seq<real>) {
    forall i, j :: 0 <= i <= j < |times| ==> times[i] <= times[j]
  }

  function After(b: Bucket, times: seq<real>): Bucket {
    if times == [] then b else Pass(After(b, times[..|times| - 1]), times[|times| - 1]).0
  }

  /** Whether the n-th turn got a permit. */
  predicate Granted(b: Bucket, times: seq<real>, n: nat)
    requires n < |times|
  {
    Pass(After(b, times[..n]), times[n]).1
  }

  /** Permits given in turns i to j - 1. */
  function Permits(b: Bucket, times: seq<real>, i: nat, j: nat): nat
    requires i <= j <= |times|
  {
    if i == j then 0 else Permits(b, times, i, j - 1) + if Granted(b, times, j - 1) then 1 else 0
  }

  lemma AfterTurn(b: Bucket, times: seq<real>, n: nat)
    requires n < |times|
    ensures After(b, times[..n + 1]) == Pass(After(b, times[..n]), times[n]).0
  {
    assert times[..n + 1][..n] == times[..n];
  }

  /** What the n-th turn finds flowed in since the turn before it. */
  function GainAt(refill: real, times: seq<real>, n: nat): real
    requires n < |times|
  {
    if n == 0 then 0.0 else Inflow(refill, times[n - 1], times[n])
  }

  function GainsOf(refill: real, times: seq<real>, n: nat): (g: seq<real>)
    requires n <= |times|
    ensures |g| == n
    ensures forall k :: 0 <= k < n ==> g[k] == GainAt(refill, times, k)
  {
    if n == 0 then [] else GainsOf(refill, times, n - 1) + [GainAt(refill, times, n - 1)]
  }

  /** The gains of a sequence of turns. */
  function Gains(refill: real, times: seq<real>): seq<real> {
    GainsOf(refill, times, |times|)
  }

  /** A bucket that starts full behaves as its gains say. */
  lemma {:induction false} AfterIsLeft(b: Bucket, times: seq<real>, n: nat)
    requires !b.used && b.tokens == b.max && n <= |times|
    ensures var a := After(b, times[..n]);
            a.tokens == Left(b.max, Gains(b.refill, times), n) && a.max == b.max && a.refill == b.refill
            && a.used == (n > 0) && (n > 0 ==> a.last == times[n - 1])
  {
    if n == 0 {
    } else {
      AfterIsLeft(b, times, n - 1);
      AfterTurn(b, times, n - 1);
      assert Gain(After(b, times[..n - 1]), times[n - 1]) == GainAt(b.refill, times, n - 1);
    }
  }

  lemma {:induction false} PermitsAreGrants(b: Bucket, times: seq<real>, i: nat, j: nat)
    requires !b.used && b.tokens == b.max && i <= j <= |times|
    ensures Permits(b, times, i, j) == GrantCount(b.max, Gains(b.refill, times), i, j)
  {
    if i == j {
    } else {
      PermitsAreGrants(b, times, i, j - 1);
      AfterIsLeft(b, times, j - 1);
      assert Gain(After(b, times[..j - 1]), times[j - 1]) == GainAt(b.refill, times, j - 1);
    }
  }

  lemma {:induction false} SumOfGains(refill: real, times: seq<real>, i: nat, j: nat)
    requires i < j <= |times|
    ensures Sum(Gains(refill, times), i + 1, j) == Inflow(refill, times[i], times[j - 1])
  {
    if j == i + 1 {
    } else {
      SumOfGains(refill, times, i, j - 1);
      InflowAdds(refill, times[i], times[j - 2], times[j - 1]);
    }
  }

  lemma {:induction false} LeftIsValid(max: real, refill: real, times: seq<real>, n: nat)
    requires 1.0 <= max && 0.0 <= refill && Ordered(times) && n <= |times|
    ensures 0.0 <= Left(max, Gains(refill, times), n)
  {
    if n == 0 {
    } else {
      LeftIsValid(max, refill, times, n - 1);
      if n > 1 {
        InflowGrows(refill, times[n - 2], times[n - 1]);
      }
    }
  }

  /** Any turns within a window of length w receive at most max + refill * w permits. */
  lemma WindowBound(b: Bucket, times: seq<real>, i: nat, j: nat, w: real)
    requires Valid(b) && !b.used && b.tokens == b.max && Ordered(times) && i < j <= |times|
    requires times[j - 1] <= times[i] + w
    ensures Permits(b, times, i, j) as real <= b.max + Inflow(b.refill, 0.0, w)
  {
    var first, last := times[i], times[j - 1];
    Budget(b.max, Gains(b.refill, times), i, j);
    PermitsAreGrants(b, times, i, j);
    SumOfGains(b.refill, times, i, j);
    LeftIsValid(b.max, b.refill, times, j);
    InflowAtMost(b.refill, first, last, w);
  }

  lemma InflowAtMost(refill: real, from: real, to: real, w: real)
    requires 0.0 <= refill && to <= from + w
    ensures Inflow(refill, from, to) <= Inflow(refill, 0.0, w)
  {
    MulGrows(to - from, w, refill);
  }

  lemma MulGrows(x: real, y: real, z: real)
    requires x <= y && 0.0 <= z
    ensures x * z <= y * z
  {
  }

  lemma DivAtMost(x: real, y: real, z: real)
    requires 0.0 < y && x <= z * y
    ensures x / y <= z
  {
  }

  /** Twice the configured rate can pass in one minute, and no more. */
  lemma MinuteBound(rpm: nat, times: seq<real>, i: nat, j: nat)
    requires rpm > 0 && Ordered(times) && i < j <= |times| && times[j - 1] <= times[i] + 60.0
    ensures Permits(New(rpm), times, i, j) <= 2 * rpm
  {
    WindowBound(New(rpm), times, i, j, 60.0);
    assert Inflow(New(rpm).refill, 0.0, 60.0) == rpm as real;
  }

  /** A rate that is not set counts as sixty. */
  lemma UnsetRateIsSixty(rpm: int)
    requires rpm <= 0
    ensures New(rpm) == New(60)
  {
  }

  // ----- the bound is reached -----

  /** A burst of rpm turns at time 0, then one turn every 60 / rpm seconds. */
  function BurstTimes(rpm: nat, n: nat): (times: seq<real>)
    requires rpm > 0
    ensures |times| == n
    ensures forall i :: 0 <= i < n ==> times[i] == TurnTime(rpm, i)
  {
    if n == 0 then [] else BurstTimes(rpm, n - 1) + [TurnTime(rpm, n - 1)]
  }

  function TurnTime(rpm: nat, i: nat): real
    requires rpm > 0
  {
    if i < rpm then 0.0 else (i - rpm + 1) as real * (60.0 / rpm as real)
  }

  /** Within the burst nothing flows in; after it exactly one token per turn. */
  lemma TurnGap(rpm: nat, i: nat)
    requires rpm > 0
    ensures TurnTime(rpm, i) <= TurnTime(rpm, i + 1)
    ensures Inflow(rpm as real / 60.0, TurnTime(rpm, i), TurnTime(rpm, i + 1)) == if i + 1 >= rpm then 1.0 else 0.0
  {
    var gap, x := 60.0 / rpm as real, rpm as real / 60.0;
    GapFills(rpm as real);
    if i + 1 >= rpm {
      var k := (i + 1 - rpm) as real;
      OneGap(k, gap);
      assert TurnTime(rpm, i + 1) == (k + 1.0) * gap;
      assert TurnTime(rpm, i) == k * gap by {
        if i + 1 == rpm {
          assert k == 0.0;
        }
      }
    }
  }

  lemma OneGap(k: real, gap: real)
    ensures (k + 1.0) * gap == k * gap + gap
  {
  }

  lemma GapFills(r: real)
    requires r > 0.0
    ensures 60.0 / r > 0.0 && 60.0 / r * (r / 60.0) == 1.0
  {
  }

  lemma {:induction false} BurstOrdered(rpm: nat, i: nat, j: nat)
    requires rpm > 0 && i <= j
    ensures TurnTime(rpm, i) <= TurnTime(rpm, j)
    decreases j
  {
    if i == j {
    } else {
      BurstOrdered(rpm, i, j - 1);
      TurnGap(rpm, j - 1);
    }
  }

  /** The bucket after n turns of the burst. */
  function BurstBucket(rpm: nat, n: nat): Bucket
    requires rpm > 0
  {
    Bucket(rpm as real, rpm as real / 60.0, if n <= rpm then (rpm - n) as real else 0.0,
           n > 0, if n > 0 then TurnTime(rpm, n - 1) else 0.0)
  }

  lemma BurstTurn(rpm: nat, n: nat)
    requires 0 < rpm && n < 2 * rpm
    ensures Pass(BurstBucket(rpm, n), TurnTime(rpm, n)) == (BurstBucket(rpm, n + 1), true)
  {
    if n > 0 {
      TurnGap(rpm, n - 1);
    }
  }

  lemma {:induction false} BurstAllGranted(rpm: nat, times: seq<real>, n: nat)
    requires rpm > 0 && times == BurstTimes(rpm, 2 * rpm) && n <= 2 * rpm
    ensures Permits(New(rpm), times, 0, n) == n
    ensures After(New(rpm), times[..n]) == BurstBucket(rpm, n)
  {
    if n == 0 {
    } else {
      BurstAllGranted(rpm, times, n - 1);
      AfterTurn(New(rpm), times, n - 1);
      BurstTurn(rpm, n - 1);
    }
  }

  /** A limiter for rpm requests a minute can grant 2 * rpm within one minute. */
  lemma TwiceTheRateHappens(rpm: nat)
    requires rpm > 0
    ensures var times := BurstTimes(rpm, 2 * rpm);
            Ordered(times) && times[2 * rpm - 1] - times[0] == 60.0
            && Permits(New(rpm), times, 0, 2 * rpm) == 2 * rpm
  {
    var times := BurstTimes(rpm, 2 * rpm);
    forall i, j | 0 <= i <= j < |times|
      ensures times[i] <= times[j]
    {
      BurstOrdered(rpm, i, j);
    }
    BurstAllGranted(rpm, times, 2 * rpm);
    LastTurn(rpm);
  }

  lemma LastTurn(rpm: nat)
    requires rpm > 0
    ensures TurnTime(rpm, 2 * rpm - 1) == 60.0
  {
    assert rpm as real * (60.0 / rpm as real) == 60.0;
  }

  // ----- waiting -----

  const MAX_WAIT := 60.0
  const MARGIN := 0.01

  /** How long Wait sleeps for the missing part of a token. */
  function Missing(b: Bucket): real
    requires b.refill > 0.0
  {
    (1.0 - b.tokens) / b.refill
  }

  lemma MissingIsPositive(b: Bucket)
    requires b.refill > 0.0 && b.tokens < 1.0
    ensures Missing(b) > 0.0
  {
  }

  lemma MulBack(x: real, y: real)
    requires y > 0.0
    ensures x / y * y == x
  {
  }

  lemma FlowFills(refill: real, from: real, to: real, missing: real)
    requires refill > 0.0 && to - from >= missing / refill
    ensures Inflow(refill, from, to) >= missing
  {
    MulGrows(missing / refill, to - from, refill);
    MulBack(missing, refill);
  }

  /** A caller alone with the bucket gets its token after one sleep of at least what Missing says. */
  lemma LoneWaiterSleepsOnce(b: Bucket, now: real, later: real)
    requires Valid(b) && NotBefore(b, now) && !Pass(b, now).1
    requires later >= now + Missing(Pass(b, now).0) + MARGIN
    ensures Pass(Pass(b, now).0, later).1
  {
    var a := Pass(b, now).0;
    PassStaysValid(b, now);
    FlowFills(a.refill, now, later, 1.0 - a.tokens);
  }

  /** At two requests a minute or more that sleep fits the budget of a caller served within half a
      minute of asking. */
  lemma SleepFitsBudget(b: Bucket, start: real, now: real)
    requires Valid(b) && b.refill >= 2.0 / 60.0 && now <= start + 30.0
    ensures now + Missing(b) <= start + MAX_WAIT
  {
    MulGrows(2.0 / 60.0, b.refill, 30.0);
    DivAtMost(1.0 - b.tokens, b.refill, 30.0);
  }

  datatype WaitResult = Permit | OverBudget | ContextDone

  lemma TurnTaken(b: Bucket, turns: seq<real>, now: real)
    ensures After(b, turns + [now]) == Pass(After(b, turns), now).0
    ensures Granted(b, turns + [now], |turns|) == Pass(After(b, turns), now).1
  {
    assert (turns + [now])[..|turns|] == turns;
  }

  /** The most a token can take to flow in. */
  lemma MissingAtMost(rpm: int, b: Bucket)
    requires Valid(b) && b.refill == New(rpm).refill && (rpm <= 0 || rpm >= 2)
    ensures Missing(b) <= 30.0
  {
    assert b.refill >= 2.0 / 60.0;
    SleepFitsBudget(b, 0.0, 0.0);
    MulGrows(2.0 / 60.0, b.refill, 30.0);
    DivAtMost(1.0 - b.tokens, b.refill, 30.0);
  }

  /** A turn that comes up empty, and the next one after the missing part has flowed in. */
  lemma NextTurnGets(b: Bucket, now: real, later: real)
    requires Valid(b) && b.used && b.last == now && later >= now + Missing(b)
    ensures Pass(b, later).1
  {
    FlowFills(b.refill, now, later, 1.0 - b.tokens);
  }

  class Limiter {
    const rpm: int
    var bucket: Bucket
    /** The clock all callers share. */
    var clock: real
    /** When callers took their turns so far. */
    ghost var turns: seq<real>

    ghost predicate Ok()
      reads this
    {
      && Valid(bucket) && NotBefore(bucket, clock)
      && bucket.max == New(rpm).max && bucket.refill == New(rpm).refill
      && bucket == After(New(rpm), turns)
      && Ordered(turns) && forall i :: 0 <= i < |turns| ==> turns[i] <= clock
    }

    constructor (requestsPerMinute: int, start: real)
      ensures Ok() && rpm == requestsPerMinute && turns == [] && clock == start
    {
      rpm := requestsPerMinute;
      bucket := New(requestsPerMinute);
      clock := start;
      turns := [];
    }

    /** Wait's critical section. */
    method TakeTurn() returns (granted: bool)
      requires Ok()
      modifies `bucket, `turns
      ensures Ok() && turns == old(turns) + [clock]
      ensures granted == Granted(New(rpm), turns, |turns| - 1) == Pass(old(bucket), clock).1
      ensures !granted ==> bucket.tokens < 1.0
      ensures bucket.used && bucket.last == clock
    {
      PassStaysValid(bucket, clock);
      TurnTaken(New(rpm), turns, clock);
      var (next, taken) := Pass(bucket, clock);
      bucket := next;
      turns := turns + [clock];
      granted := taken;
    }

    /** Time passes by at least d seconds, and other callers take any number of turns; a caller alone
        with the limiter loses no time but by sleeping. */
    method Elapse(d: real, alone: bool)
      requires Ok() && d >= 0.0
      modifies `bucket, `turns, `clock
      ensures Ok() && clock >= old(clock) + d && old(turns) <= turns
      ensures alone ==> bucket == old(bucket) && (d == 0.0 ==> clock == old(clock))
    {
      var more: real :| more >= 0.0 && (alone && d == 0.0 ==> more == 0.0);
      clock := clock + d + more;
      var others: int :| others >= 0 && (alone ==> others == 0);
      for i := 0 to others
        invariant Ok() && clock == old(clock) + d + more && old(turns) <= turns
        invariant i == 0 ==> bucket == old(bucket)
      {
        var _ := TakeTurn();
      }
    }

    /** Takes a token, or gives up: each sleep brings the deadline at least 10 ms closer, so it
        always returns, after at most 6000 sleeps. Its last turn was granted exactly when it says
        so, and it gives up only when the missing token would come too late. Alone with a limiter
        for two requests a minute or more, it has its token after at most one sleep. */
    method Wait(alone: bool) returns (res: WaitResult, ghost sleeps: nat)
      requires Ok()
      modifies `bucket, `turns, `clock
      ensures Ok() && old(turns) < turns && turns[|turns| - 1] == clock
      ensures res.Permit? <==> Granted(New(rpm), turns, |turns| - 1)
      ensures res.OverBudget? ==> clock + Missing(bucket) > old(clock) + MAX_WAIT
      ensures sleeps <= 6000 && clock >= old(clock) + sleeps as real * MARGIN
      ensures alone && (rpm <= 0 || rpm >= 2) ==> !res.OverBudget? && sleeps <= 1
    {
      hide After, Granted, Ordered, Missing, New, Pass;
      ghost var quick := alone && (rpm <= 0 || rpm >= 2);
      var deadline := clock + MAX_WAIT;
      sleeps := 0;
      Elapse(0.0, alone);
      while true
        invariant Ok() && deadline == old(clock) + MAX_WAIT && old(turns) <= turns
        invariant clock >= old(clock) + sleeps as real * MARGIN && sleeps <= 6000
        invariant quick ==> (sleeps == 0 && clock == old(clock)) || (sleeps == 1 && Pass(bucket, clock).1)
        decreases (deadline - clock) / MARGIN
      {
        var granted := TakeTurn();
        if granted {
          return Permit, sleeps;
        }
        var wait := Missing(bucket);
        MissingIsPositive(bucket);
        if quick {
          MissingAtMost(rpm, bucket);
        }
        if clock + wait > deadline {
          return OverBudget, sleeps;
        }
        var done: bool := *;
        if done {
          return ContextDone, sleeps;
        }
        ghost var before := clock;
        Elapse(wait + MARGIN, alone);
        if quick {
          NextTurnGets(bucket, before, clock);
        }
        sleeps := sleeps + 1;
      }
    }
  }
}
