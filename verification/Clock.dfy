/** The interval clock: which interval it is in, how long until the next, and which
    interval its callbacks are told. Times are in milliseconds and may precede genesis. */
module Clock {
  import opened Basics

  const CLOCK_DISPARITY_MS: int := 100
  /** A slot of four seconds has five intervals. */
  const INTERVAL_MS: int := 800

  function StartOf(genesis: int, interval: int): (ms: int) {
    genesis + interval * INTERVAL_MS
  }

  function CeilDiv(a: int, b: int): (q: int)
    requires b > 0
    ensures (q - 1) * b < a <= q * b
  {
    -((-a) / b)
  }

  function Max(a: int, b: int): (m: int) {
    if a >= b then a else b
  }

  /** The interval after a tick, in closed form. */
  function Ticked(genesis: int, interval: int, now: int): (next: int) {
    Max(interval, CeilDiv(now + CLOCK_DISPARITY_MS - genesis, INTERVAL_MS) - 1)
  }

  /** The time to the interval after the current one. */
  function WaitFor(genesis: int, interval: int, now: int): (ms: int) {
    StartOf(genesis, interval + 1) - now
  }

  class Ticker {
    const genesisTimeMs: int
    var currentIntervalTimeMs: int
    var currentInterval: int
    /** The interval each subscribed callback will be told. */
    var callbackIntervals: seq<int>

    ghost predicate Valid()
      reads this
    {
      currentIntervalTimeMs == StartOf(genesisTimeMs, currentInterval)
    }

    constructor (genesisTime: nat, now: int)
      ensures Valid() && genesisTimeMs == genesisTime * 1000 && callbackIntervals == []
      ensures StartOf(genesisTimeMs, currentInterval) <= now + CLOCK_DISPARITY_MS < StartOf(genesisTimeMs, currentInterval + 1)
    {
      genesisTimeMs := genesisTime * 1000;
      var interval := (now + CLOCK_DISPARITY_MS - genesisTime * 1000) / INTERVAL_MS;
      currentInterval := interval;
      currentIntervalTimeMs := genesisTime * 1000 + interval * INTERVAL_MS;
      callbackIntervals := [];
    }

    method TickInterval(now: int) returns (wait: int)
      requires Valid()
      modifies `currentIntervalTimeMs, `currentInterval, `callbackIntervals
      ensures Valid()
      ensures currentInterval == Ticked(genesisTimeMs, old(currentInterval), now)
      ensures wait == WaitFor(genesisTimeMs, currentInterval, now) && wait >= CLOCK_DISPARITY_MS
      ensures |callbackIntervals| == |old(callbackIntervals)|
      ensures forall i :: 0 <= i < |callbackIntervals| ==> callbackIntervals[i] == currentInterval + 1
    {
      while currentIntervalTimeMs + INTERVAL_MS < now + CLOCK_DISPARITY_MS
        invariant Valid() && callbackIntervals == old(callbackIntervals)
        invariant currentInterval >= old(currentInterval)
        invariant currentInterval > old(currentInterval) ==> currentIntervalTimeMs < now + CLOCK_DISPARITY_MS
        decreases now - currentIntervalTimeMs
      {
        currentIntervalTimeMs := currentIntervalTimeMs + INTERVAL_MS;
        currentInterval := currentInterval + 1;
      }
      wait := currentIntervalTimeMs + INTERVAL_MS - now;
      TickedIs(genesisTimeMs, old(currentInterval), now, currentInterval);
      ArmCallbacks();
    }

    method ArmCallbacks()
      modifies `callbackIntervals
      ensures |callbackIntervals| == |old(callbackIntervals)|
      ensures forall i :: 0 <= i < |callbackIntervals| ==> callbackIntervals[i] == currentInterval + 1
    {
      for i := 0 to |callbackIntervals|
        invariant |callbackIntervals| == |old(callbackIntervals)|
        invariant forall j :: 0 <= j < i ==> callbackIntervals[j] == currentInterval + 1
      {
        callbackIntervals := callbackIntervals[i := currentInterval + 1];
      }
    }

    method SubscribeOnSlot(interval: int)
      requires Valid()
      modifies `callbackIntervals
      ensures Valid() && callbackIntervals == old(callbackIntervals) + [interval]
    {
      callbackIntervals := callbackIntervals + [interval];
    }
  }

  /** The loop stops at the first interval whose successor is not yet due. */
  lemma TickedIs(genesis: int, interval: int, now: int, next: int)
    requires next >= interval
    requires StartOf(genesis, next + 1) >= now + CLOCK_DISPARITY_MS
    requires next > interval ==> StartOf(genesis, next) < now + CLOCK_DISPARITY_MS
    ensures next == Ticked(genesis, interval, now)
  {}

  /** The clock has not run ahead of a reading `now` by more than the disparity. */
  predicate Current(genesis: int, interval: int, now: int) {
    StartOf(genesis, interval) <= now + CLOCK_DISPARITY_MS
  }

  /** With readings that do not go back, a tick keeps the clock current and waits between
      the disparity and an interval more than that. */
  lemma TickStaysCurrent(genesis: int, interval: int, before: int, now: int)
    requires Current(genesis, interval, before) && before <= now
    ensures var next := Ticked(genesis, interval, now);
            Current(genesis, next, now)
            && CLOCK_DISPARITY_MS <= WaitFor(genesis, next, now) <= INTERVAL_MS + CLOCK_DISPARITY_MS
  {}

  /** The next tick moves on exactly when the timer fired less than the disparity early. */
  lemma NextTickAdvancesIff(genesis: int, interval: int, now: int, later: int)
    ensures var next := Ticked(genesis, interval, now);
            Ticked(genesis, next, later) > next
            <==> later > now + WaitFor(genesis, next, now) - CLOCK_DISPARITY_MS
  {
    TickedMovesIff(genesis, Ticked(genesis, interval, now), later);
  }

  /** A tick moves on exactly when the next interval is due, the disparity included. */
  lemma TickedMovesIff(genesis: int, interval: int, now: int)
    ensures Ticked(genesis, interval, now) > interval <==> StartOf(genesis, interval + 1) < now + CLOCK_DISPARITY_MS
  {
    var due := CeilDiv(now + CLOCK_DISPARITY_MS - genesis, INTERVAL_MS);
    assert (due - 1) * INTERVAL_MS < now + CLOCK_DISPARITY_MS - genesis <= due * INTERVAL_MS;
  }

  /** The intervals told to callbacks by a run of ticks at the given readings. */
  function Scheduled(genesis: int, interval: int, readings: seq<int>): (r: seq<int>)
    decreases |readings|
  {
    if readings == [] then []
    else
      var next := Ticked(genesis, interval, readings[0]);
      [next + 1] + Scheduled(genesis, next, readings[1..])
  }

  /** Each reading comes after the timer set at the one before, or less than the disparity early. */
  ghost predicate TimersHold(genesis: int, interval: int, readings: seq<int>)
    decreases |readings|
  {
    |readings| > 1 ==>
      var next := Ticked(genesis, interval, readings[0]);
      readings[1] > readings[0] + WaitFor(genesis, next, readings[0]) - CLOCK_DISPARITY_MS
      && TimersHold(genesis, next, readings[1..])
  }

  predicate Increasing(s: seq<int>) {
    forall i, j :: 0 <= i < j < |s| ==> s[i] < s[j]
  }

  lemma IncreasingInFront(x: int, rest: seq<int>)
    ensures Increasing([x] + rest) <==> Increasing(rest) && (rest == [] || x < rest[0])
  {
    var all := [x] + rest;
    if Increasing(all) {
      forall i, j | 0 <= i < j < |rest| ensures rest[i] < rest[j] {
        assert all[i + 1] < all[j + 1];
      }
      if rest != [] { assert all[0] < all[1]; }
    }
    if Increasing(rest) && (rest == [] || x < rest[0]) {
      forall i, j | 0 <= i < j < |all| ensures all[i] < all[j] {
        if j > 1 { assert rest[0] < rest[j - 1]; }
      }
    }
  }

  /** No interval is handed out twice exactly when the timers hold: whole runs. */
  lemma {:induction false} ScheduleIncreasesIff(genesis: int, interval: int, readings: seq<int>)
    ensures Increasing(Scheduled(genesis, interval, readings)) <==> TimersHold(genesis, interval, readings)
    decreases |readings|
  {
    hide Ticked, WaitFor;
    if |readings| > 1 {
      hide Increasing;
      var next := Ticked(genesis, interval, readings[0]);
      var rest := Scheduled(genesis, next, readings[1..]);
      ScheduleIncreasesIff(genesis, next, readings[1..]);
      NextTickAdvancesIff(genesis, interval, readings[0], readings[1]);
      assert readings[1..][0] == readings[1] && rest[0] == Ticked(genesis, next, readings[1]) + 1;
      IncreasingInFront(next + 1, rest);
    }
  }
}
