/** The token bucket of the API server, in exact arithmetic, for clocks that do not run
    backwards. */
module RateLimiter {
  import opened Basics

  const RATE_LIMIT_RPS: real := 2.0
  const RATE_LIMIT_BURST: real := 5.0
  const NS_PER_S: nat := 1_000_000_000
  const RATE_LIMIT_CLEANUP_THRESHOLD: nat := 128
  const RATE_LIMIT_STALE_NS: nat := 10 * 60 * NS_PER_S
  const RATE_LIMIT_CLEANUP_COOLDOWN_NS: nat := 60 * NS_PER_S

  /** The text form of an address. */
  type Key = string

  datatype Entry = Entry(tokens: real, lastRefillNs: nat)
  datatype Limiter = Limiter(entries: map<Key, Entry>, lastCleanupNs: nat)

  /** A request: when, and from which address, if the address family has a key; whether there
      is memory for a new entry; and which stale entries cannot be noted for removal. */
  datatype Call = Call(now: nat, key: Option<Key>, memory: bool, kept: set<Key>)

  function Min(a: real, b: real): (r: real) {
    if a <= b then a else b
  }

  /** Tokens earned in `ns` nanoseconds. */
  function Earned(ns: nat): (r: real)
    ensures r >= 0.0
  {
    ns as real / NS_PER_S as real * RATE_LIMIT_RPS
  }

  function Refilled(e: Entry, now: nat): (r: Entry)
    requires e.lastRefillNs <= now
  {
    if now - e.lastRefillNs > 0 then
      Entry(Min(RATE_LIMIT_BURST, e.tokens + Earned(now - e.lastRefillNs)), now)
    else e
  }

  predicate Stale(e: Entry, now: nat) {
    now - e.lastRefillNs > RATE_LIMIT_STALE_NS
  }

  function WithoutStale(entries: map<Key, Entry>, now: nat, kept: set<Key>): (r: map<Key, Entry>) {
    map k | k in entries && (k in kept || !Stale(entries[k], now)) :: entries[k]
  }

  predicate CleanupDue(s: Limiter, now: nat) {
    |s.entries| > RATE_LIMIT_CLEANUP_THRESHOLD && now - s.lastCleanupNs > RATE_LIMIT_CLEANUP_COOLDOWN_NS
  }

  function Cleaned(s: Limiter, now: nat, kept: set<Key>): (r: Limiter) {
    if CleanupDue(s, now) then Limiter(WithoutStale(s.entries, now, kept), now) else s
  }

  /** Everything the limiter remembers is in the past and within the burst. */
  ghost predicate InOrder(s: Limiter, now: nat) {
    s.lastCleanupNs <= now
    && forall k :: k in s.entries ==> s.entries[k].lastRefillNs <= now && 0.0 <= s.entries[k].tokens <= RATE_LIMIT_BURST
  }

  /** One request against the bucket of its address; it passes free when there is no bucket
      and no memory for one. */
  function Spend(s: Limiter, now: nat, key: Key, memory: bool): (r: (Limiter, bool))
    requires InOrder(s, now)
  {
    if key !in s.entries && !memory then (s, true) else
    var e := Refilled(if key in s.entries then s.entries[key] else Entry(RATE_LIMIT_BURST, now), now);
    if e.tokens < 1.0 then (s.(entries := s.entries[key := e]), false)
    else (s.(entries := s.entries[key := e.(tokens := e.tokens - 1.0)]), true)
  }

  function Allowed(s: Limiter, c: Call): (r: (Limiter, bool))
    requires InOrder(s, c.now)
  {
    if c.key.None? then (s, true)
    else
      CleaningKeepsOrder(s, c.now, c.kept);
      Spend(Cleaned(s, c.now, c.kept), c.now, c.key.value, c.memory)
  }

  class Server {
    var entries: map<Key, Entry>
    var lastCleanupNs: nat

    ghost function State(): (s: Limiter)
      reads this
    {
      Limiter(entries, lastCleanupNs)
    }

    constructor ()
      ensures State() == Limiter(map[], 0)
    {
      entries := map[];
      lastCleanupNs := 0;
    }

    method Allow(c: Call) returns (ok: bool)
      requires InOrder(State(), c.now)
      modifies this
      ensures (State(), ok) == Allowed(old(State()), c)
    {
      if c.key.None? { return true; }
      var key, now := c.key.value, c.now;
      if |entries| > RATE_LIMIT_CLEANUP_THRESHOLD && now - lastCleanupNs > RATE_LIMIT_CLEANUP_COOLDOWN_NS {
        EvictStale(now, c.kept);
      }
      ghost var cleaned := State();
      if key !in entries && !c.memory { return true; }
      if key !in entries { entries := entries[key := Entry(RATE_LIMIT_BURST, now)]; }
      var elapsed := now - entries[key].lastRefillNs;
      if elapsed > 0 {
        var refill := elapsed as real / NS_PER_S as real * RATE_LIMIT_RPS;
        entries := entries[key := Entry(Min(RATE_LIMIT_BURST, entries[key].tokens + refill), now)];
      }
      if entries[key].tokens < 1.0 {
        ok := false;
      } else {
        entries := entries[key := entries[key].(tokens := entries[key].tokens - 1.0)];
        ok := true;
      }
      assert State().entries == Spend(cleaned, now, key, c.memory).0.entries;
    }

    method EvictStale(now: nat, kept: set<Key>)
      modifies this
      ensures State() == Limiter(WithoutStale(old(entries), now, kept), now)
    {
      var toRemove: seq<Key> := [];
      var left := entries.Keys;
      while left != {}
        invariant entries == old(entries) && lastCleanupNs == old(lastCleanupNs) && left <= entries.Keys
        invariant forall k :: k in toRemove <==> k in entries.Keys - left && Stale(entries[k], now) && k !in kept
        decreases left
      {
        var k :| k in left;
        left := left - {k};
        if now - entries[k].lastRefillNs > RATE_LIMIT_STALE_NS && k !in kept { toRemove := toRemove + [k]; }
      }
      for i := 0 to |toRemove|
        invariant lastCleanupNs == old(lastCleanupNs)
        invariant entries == old(entries) - Elements(toRemove[..i])
      {
        entries := entries - {toRemove[i]};
        assert Elements(toRemove[..i + 1]) == Elements(toRemove[..i]) + {toRemove[i]};
      }
      assert toRemove[..|toRemove|] == toRemove;
      assert entries == WithoutStale(old(entries), now, kept);
      lastCleanupNs := now;
    }
  }

  /** What an address could spend at time `t`: its tokens with the refill due, or the whole
      burst if it is not remembered. */
  ghost function Level(s: Limiter, k: Key, t: nat): (r: real)
    requires InOrder(s, t)
    ensures 0.0 <= r <= RATE_LIMIT_BURST
  {
    if k in s.entries then Min(RATE_LIMIT_BURST, s.entries[k].tokens + Earned(t - s.entries[k].lastRefillNs))
    else RATE_LIMIT_BURST
  }

  lemma CleaningKeepsOrder(s: Limiter, now: nat, kept: set<Key>)
    requires InOrder(s, now)
    ensures InOrder(Cleaned(s, now, kept), now)
  {}

  lemma EarnedAdds(a: nat, b: nat)
    ensures Earned(a + b) == Earned(a) + Earned(b)
  {
    assert (a + b) as real == a as real + b as real;
  }

  lemma LateMeansFull(ns: nat)
    requires ns > RATE_LIMIT_STALE_NS
    ensures Earned(ns) >= RATE_LIMIT_BURST
  {
    EarnedAdds(RATE_LIMIT_STALE_NS, ns - RATE_LIMIT_STALE_NS);
    assert Earned(RATE_LIMIT_STALE_NS) == 1200.0;
  }

  /** Forgetting a stale address does not change what it could spend: its bucket was full. */
  lemma CleaningKeepsLevels(s: Limiter, now: nat, kept: set<Key>, k: Key)
    requires InOrder(s, now)
    ensures InOrder(Cleaned(s, now, kept), now) && Level(Cleaned(s, now, kept), k, now) == Level(s, k, now)
  {
    if k in s.entries && Stale(s.entries[k], now) { LateMeansFull(now - s.entries[k].lastRefillNs); }
  }

  /** Levels follow the clock: they grow at the rate, up to the burst. */
  lemma LevelLater(s: Limiter, k: Key, t: nat, u: nat)
    requires InOrder(s, t) && t <= u
    ensures InOrder(s, u) && Level(s, k, u) == Min(RATE_LIMIT_BURST, Level(s, k, t) + Earned(u - t))
  {
    if k in s.entries { EarnedAdds(t - s.entries[k].lastRefillNs, u - t); }
  }

  /** The request passes without being charged to a bucket. */
  predicate Free(s: Limiter, c: Call) {
    c.key.None? || (c.key.value !in Cleaned(s, c.now, c.kept).entries && !c.memory)
  }

  /** A request is let through exactly when its address has a whole token, and costs that
      address one token and the others nothing, or nobody anything when it is free. Cleaning
      up never shows. */
  lemma AllowedByLevel(s: Limiter, c: Call, k: Key)
    requires InOrder(s, c.now)
    ensures var (s', ok) := Allowed(s, c);
            InOrder(s', c.now)
            && (c.key.Some? ==> (ok <==> Level(s, c.key.value, c.now) >= 1.0))
            && (c.key.None? ==> ok)
            && Level(s', k, c.now) == Level(s, k, c.now) - (if c.key == Some(k) && ok && !Free(s, c) then 1.0 else 0.0)
  {
    if c.key.Some? {
      CleaningKeepsLevels(s, c.now, c.kept, k);
      CleaningKeepsLevels(s, c.now, c.kept, c.key.value);
      SpendByLevel(Cleaned(s, c.now, c.kept), c.now, c.key.value, c.memory, k);
    }
  }

  lemma SpendByLevel(s: Limiter, now: nat, key: Key, memory: bool, k: Key)
    requires InOrder(s, now)
    ensures var (s', ok) := Spend(s, now, key, memory);
            InOrder(s', now)
            && (ok <==> Level(s, key, now) >= 1.0)
            && Level(s', k, now) == Level(s, k, now) - (if k == key && ok && (key in s.entries || memory) then 1.0 else 0.0)
  {
    assert Earned(0) == 0.0;
  }

  /** Times do not go down from `t` on. */
  ghost predicate Ordered(calls: seq<Call>, t: nat) {
    calls != [] ==> t <= calls[0].now && Ordered(calls[1..], calls[0].now)
  }

  lemma AllowedInOrder(s: Limiter, c: Call, t: nat)
    requires InOrder(s, t) && t <= c.now
    ensures InOrder(s, c.now) && InOrder(Allowed(s, c).0, c.now)
  {
    AllowedByLevel(s, c, "");
  }

  /** The answers to a run of requests. */
  ghost function Answers(s: Limiter, calls: seq<Call>, t: nat): (r: seq<bool>)
    requires InOrder(s, t) && Ordered(calls, t)
    decreases |calls|
  {
    if calls == [] then []
    else
      AllowedInOrder(s, calls[0], t);
      var (s', ok) := Allowed(s, calls[0]);
      [ok] + Answers(s', calls[1..], calls[0].now)
  }

  /** The answers of a limiter that forgets nobody. */
  ghost function AnswersWithoutEviction(s: Limiter, calls: seq<Call>, t: nat): (r: seq<bool>)
    requires InOrder(s, t) && Ordered(calls, t)
    decreases |calls|
  {
    if calls == [] then []
    else
      var c := calls[0];
      if c.key.None? then [true] + AnswersWithoutEviction(s, calls[1..], c.now)
      else
        SpendByLevel(s, c.now, c.key.value, c.memory, "");
        var (s', ok) := Spend(s, c.now, c.key.value, c.memory);
        [ok] + AnswersWithoutEviction(s', calls[1..], c.now)
  }

  ghost predicate SameLevels(s: Limiter, u: Limiter, t: nat)
    requires InOrder(s, t) && InOrder(u, t)
  {
    forall k: Key :: Level(s, k, t) == Level(u, k, t)
  }

  lemma SameLevelsLater(s: Limiter, u: Limiter, t: nat, now: nat)
    requires InOrder(s, t) && InOrder(u, t) && SameLevels(s, u, t) && t <= now
    ensures InOrder(s, now) && InOrder(u, now) && SameLevels(s, u, now)
  {
    forall k: Key ensures InOrder(s, now) && InOrder(u, now) && Level(s, k, now) == Level(u, k, now) {
      LevelLater(s, k, t, now);
      LevelLater(u, k, t, now);
      assert Level(s, k, t) == Level(u, k, t);
    }
    LevelLater(s, "", t, now);
    LevelLater(u, "", t, now);
  }

  lemma SameLevelsAfterCall(s: Limiter, u: Limiter, c: Call)
    requires InOrder(s, c.now) && InOrder(u, c.now) && SameLevels(s, u, c.now) && c.key.Some? && c.memory
    ensures var (s', ok), (u', ok') := Allowed(s, c), Spend(u, c.now, c.key.value, true);
            ok == ok' && InOrder(s', c.now) && InOrder(u', c.now) && SameLevels(s', u', c.now)
  {
    var now, key := c.now, c.key.value;
    var s', u' := Allowed(s, c).0, Spend(u, now, key, true).0;
    AllowedByLevel(s, c, key);
    SpendByLevel(u, now, key, true, key);
    assert Level(s, key, now) == Level(u, key, now);
    forall k: Key ensures Level(s', k, now) == Level(u', k, now) {
      AllowedByLevel(s, c, k);
      SpendByLevel(u, now, key, true, k);
      assert Level(s, k, now) == Level(u, k, now);
    }
  }

  /** Eviction cannot be observed: two limiters with the same levels answer every run of
      requests alike, one evicting, all it finds or a part, and one not, as long as memory
      for new entries lasts. */
  lemma {:induction false} EvictionIsInvisible(s: Limiter, u: Limiter, calls: seq<Call>, t: nat)
    requires InOrder(s, t) && InOrder(u, t) && SameLevels(s, u, t) && Ordered(calls, t)
    requires forall i :: 0 <= i < |calls| ==> calls[i].memory
    ensures Answers(s, calls, t) == AnswersWithoutEviction(u, calls, t)
    decreases |calls|
  {
    if calls != [] {
      var c := calls[0];
      SameLevelsLater(s, u, t, c.now);
      if c.key.None? {
        EvictionIsInvisible(s, u, calls[1..], c.now);
      } else {
        SameLevelsAfterCall(s, u, c);
        EvictionIsInvisible(Allowed(s, c).0, Spend(u, c.now, c.key.value, true).0, calls[1..], c.now);
      }
    }
  }

  /** How many requests of one address a run lets through and charges to it. */
  ghost function Admitted(s: Limiter, calls: seq<Call>, t: nat, k: Key): (n: nat)
    requires InOrder(s, t) && Ordered(calls, t)
    decreases |calls|
  {
    if calls == [] then 0
    else
      AllowedInOrder(s, calls[0], t);
      var (s', ok) := Allowed(s, calls[0]);
      (if ok && calls[0].key == Some(k) && !Free(s, calls[0]) then 1 else 0) + Admitted(s', calls[1..], calls[0].now, k)
  }

  lemma {:induction false} AdmittedWithinLevel(s: Limiter, calls: seq<Call>, t: nat, k: Key, end: nat)
    requires InOrder(s, t) && Ordered(calls, t)
    requires t <= end && (calls != [] ==> calls[|calls| - 1].now <= end)
    ensures Admitted(s, calls, t, k) as real <= Level(s, k, t) + Earned(end - t)
    decreases |calls|
  {
    if calls != [] {
      var c := calls[0];
      var s' := Allowed(s, c).0;
      LastIsLatest(calls, t);
      LevelLater(s, k, t, c.now);
      AllowedByLevel(s, c, k);
      assert calls[1..] != [] ==> calls[1..][|calls[1..]| - 1] == calls[|calls| - 1];
      AdmittedWithinLevel(s', calls[1..], c.now, k, end);
      EarnedAdds(c.now - t, end - c.now);
    }
  }

  lemma {:induction false} LastIsLatest(calls: seq<Call>, t: nat)
    requires Ordered(calls, t) && calls != []
    ensures calls[0].now <= calls[|calls| - 1].now
    decreases |calls|
  {
    if |calls| > 1 {
      LastIsLatest(calls[1..], calls[0].now);
      assert calls[1..][|calls[1..]| - 1] == calls[|calls| - 1];
    }
  }

  /** From any state the limiter can be in, at most 5 + 2T requests of one address get
      through in T seconds, not counting those that pass for lack of memory. */
  lemma WindowBound(s: Limiter, calls: seq<Call>, t: nat, k: Key, end: nat)
    requires InOrder(s, t) && Ordered(calls, t)
    requires t <= end && (calls != [] ==> calls[|calls| - 1].now <= end)
    ensures Admitted(s, calls, t, k) as real
            <= 5.0 + 2.0 * ((end - t) as real / 1_000_000_000.0)
  {
    AdmittedWithinLevel(s, calls, t, k, end);
  }

  /** Half a second after any state, a request passes: a token has come in. */
  lemma HalfSecondPasses(s: Limiter, t: nat, c: Call)
    requires InOrder(s, t) && c.now >= t + 500_000_000
    ensures InOrder(s, c.now) && Allowed(s, c).1
  {
    if c.key.Some? {
      LevelLater(s, c.key.value, t, c.now);
      EarnedAdds(500_000_000, c.now - t - 500_000_000);
      assert Earned(500_000_000) == 1.0;
      AllowedByLevel(s, c, c.key.value);
    } else {
      LevelLater(s, "", t, c.now);
    }
  }

  /** Requests of one address, one every half second after `t`. */
  ghost function Paced(k: Key, t: nat, n: nat): (calls: seq<Call>)
    ensures |calls| == n && (n > 0 ==> calls[n - 1].now == t + 500_000_000 * n)
    ensures Ordered(calls, t)
    decreases n
  {
    if n == 0 then [] else [Call(t + 500_000_000, Some(k), true, {})] + Paced(k, t + 500_000_000, n - 1)
  }

  lemma {:induction false} PacedPass(s: Limiter, k: Key, t: nat, n: nat)
    requires InOrder(s, t)
    ensures Admitted(s, Paced(k, t, n), t, k) == n
    decreases n
  {
    if n > 0 {
      var calls := Paced(k, t, n);
      var c := calls[0];
      assert calls[1..] == Paced(k, t + 500_000_000, n - 1);
      HalfSecondPasses(s, t, c);
      AllowedInOrder(s, c, t);
      PacedPass(Allowed(s, c).0, k, c.now, n - 1);
    }
  }

  /** `m` requests at once and then `n` paced ones. */
  ghost function BurstThenPaced(c: Call, k: Key, m: nat, n: nat): (calls: seq<Call>)
    ensures |calls| == m + n && Ordered(calls, c.now)
    ensures m + n > 0 ==> calls[m + n - 1].now == c.now + 500_000_000 * n
    decreases m
  {
    if m == 0 then Paced(k, c.now, n) else [c] + BurstThenPaced(c, k, m - 1, n)
  }

  lemma {:induction false} BurstThenPacedPass(s: Limiter, c: Call, k: Key, m: nat, n: nat)
    requires c.key == Some(k) && c.memory && InOrder(s, c.now) && Level(s, k, c.now) >= m as real
    ensures Admitted(s, BurstThenPaced(c, k, m, n), c.now, k) == m + n
    decreases m
  {
    if m == 0 {
      PacedPass(s, k, c.now, n);
    } else {
      assert BurstThenPaced(c, k, m, n)[1..] == BurstThenPaced(c, k, m - 1, n);
      AllowedByLevel(s, c, k);
      BurstThenPacedPass(Allowed(s, c).0, c, k, m - 1, n);
    }
  }

  /** The bound is sharp for every window of whole half seconds: from an empty limiter five
      requests at once and one every half second all pass, which makes 5 + 2T in T seconds. */
  lemma BoundIsReached(now: nat, k: Key, halves: nat)
    ensures var calls := BurstThenPaced(Call(now, Some(k), true, {}), k, 5, halves);
            calls[|calls| - 1].now == now + 500_000_000 * halves
            && Admitted(Limiter(map[], 0), calls, now, k) == 5 + halves
  {
    BurstThenPacedPass(Limiter(map[], 0), Call(now, Some(k), true, {}), k, 5, halves);
  }
}
