/**
 The two bucket tables in use (`api/ratelimit.py`, `api/ratelimit_redis.py`): one bounded,
 evicting as it fills, one in Redis whose entries expire. Both answer as the unbounded one.
 */
module RateLimit {
  import opened Options
  import opened Eviction
  import opened TokenBucket

  const MAX_BUCKETS: nat := 20000

  // ---------- eviction ----------

  /** What is left when buckets idle for more than a period are gone. */
  function Recent(m: Table, now: real, period: real): Table {
    map k | k in m && now - m[k].lastSeen <= period :: m[k]
  }

  function LastSeen(m: Table): Dates {
    map k | k in m :: m[k].lastSeen
  }

  /** `_evict_locked`: nothing below the cap; else the idle, and if that is not enough the least recently seen. */
  ghost predicate Evicted(before: Table, after: Table, now: real, period: real) {
    if |before| < MAX_BUCKETS then after == before
    else
      var recent := Recent(before, now, period);
      if |recent| < MAX_BUCKETS then after == recent
      else
        && after.Keys <= recent.Keys && (forall k :: k in after ==> after[k] == recent[k])
        && DropsOldest(LastSeen(recent), after.Keys, |recent| / 4)
  }

  // ---------- the limiter ----------

  class RateLimiter {
    const period: real
    var buckets: Table

    ghost predicate Valid()
      reads this
    {
      period > 0.0 && |buckets| <= MAX_BUCKETS
    }

    constructor (period: real)
      requires period > 0.0
      ensures Valid() && this.period == period && buckets == map[]
    {
      this.period := period;
      buckets := map[];
    }

    method Evict(now: real)
      requires Valid()
      modifies this
      ensures Evicted(old(buckets), buckets, now, period) && |buckets| < MAX_BUCKETS
      ensures |old(buckets)| < MAX_BUCKETS ==> buckets == old(buckets)
      ensures forall k :: k in buckets ==> k in old(buckets) && buckets[k] == old(buckets)[k]
      ensures |old(buckets)| >= MAX_BUCKETS ==> forall k :: k in buckets ==> now - buckets[k].lastSeen <= period
      ensures forall d, k :: d in old(buckets) && d !in buckets && now - old(buckets)[d].lastSeen <= period && k in buckets ==>
        old(buckets)[d].lastSeen <= buckets[k].lastSeen
    {
      if |buckets| < MAX_BUCKETS {
        return;
      }
      var before := buckets;
      buckets := Recent(before, now, period);
      assert buckets.Keys <= before.Keys;
      SmallerSet(buckets.Keys, before.Keys);
      if |buckets| >= MAX_BUCKETS {
        var recent := buckets;
        assert |recent| == MAX_BUCKETS;
        SameSize(recent);
        var kept := DropOldest(LastSeen(recent));
        buckets := map k | k in recent && k in kept :: recent[k];
        assert buckets.Keys == kept;
        assert |buckets| == |buckets.Keys|;
        forall d, k | d in before && d !in buckets && now - before[d].lastSeen <= period && k in buckets
          ensures before[d].lastSeen <= buckets[k].lastSeen
        {
          assert LastSeen(recent)[d] <= LastSeen(recent)[k];
        }
      }
    }

    /**
     One request: `limit` is what the environment says now, `shared` what Redis answered,
     if there is one. The bounded table answers from the level of the key.
     */
    method Check(key: string, now: real, limit: int, shared: Option<Answer>) returns (answer: Answer, ghost kept: Table)
      requires Valid()
      modifies this
      ensures Valid()
      ensures limit <= 0 ==> answer == Answer(true, 0) && buckets == old(buckets)
      ensures limit > 0 && shared.Some? ==> answer == shared.value && buckets == old(buckets)
      ensures limit > 0 && shared.None? ==> answer == Reply(Level(old(buckets), key, now, Policy(limit, period)), Policy(limit, period))
      ensures limit > 0 && shared.None? ==> buckets == Update(kept, key, now, Policy(limit, period))
      ensures limit > 0 && shared.None? ==>
        if key in old(buckets) then kept == old(buckets) else Evicted(old(buckets), kept, now, period)
      ensures limit > 0 && shared.None? ==>
        AnyStep(old(buckets), kept, buckets, Request(now, key), Policy(limit, period))
    {
      kept := buckets;
      if limit <= 0 {
        return Answer(true, 0), kept;
      }
      if shared.Some? {
        return shared.value, kept;
      }
      var p := Policy(limit, period);
      var tokens := limit as real;
      if key in buckets {
        tokens := Refilled(buckets[key], now, p);
      } else {
        Evict(now);
        kept := buckets;
        EvictedWithin(old(buckets), kept, now, period);
      }
      assert tokens == Level(old(buckets), key, now, p) && tokens == Level(kept, key, now, p);
      var left;
      left, answer := Draw(tokens, p);
      buckets := buckets[key := Bucket(left, now)];
      UpdateSize(kept, key, buckets);
    }
  }

  function Refilled(b: Bucket, now: real, p: Policy): real
    requires p.Valid()
  {
    Min(p.limit as real, b.tokens + (now - b.lastSeen) * (p.limit as real / p.period))
  }

  /** Takes a token, or says how long one takes to earn. */
  method Draw(tokens: real, p: Policy) returns (left: real, answer: Answer)
    requires p.Valid()
    ensures left == Spend(tokens) && answer == Reply(tokens, p)
  {
    if tokens >= 1.0 {
      return tokens - 1.0, Answer(true, 0);
    }
    var wait := ((1.0 - tokens) / (p.limit as real / p.period)).Floor + 1;
    return tokens, Answer(false, if wait > 1 then wait else 1);
  }

  lemma SameSize(m: Table)
    ensures |LastSeen(m)| == |m|
  {
    assert LastSeen(m).Keys == m.Keys;
    assert |LastSeen(m)| == |LastSeen(m).Keys| && |m| == |m.Keys|;
  }

  lemma EvictedWithin(before: Table, after: Table, now: real, period: real)
    requires Evicted(before, after, now, period)
    ensures after.Keys <= before.Keys && forall k :: k in after ==> after[k] == before[k]
  {
  }

  lemma UpdateSize(before: Table, key: string, after: Table)
    requires after.Keys == before.Keys + {key}
    ensures |after| <= |before| + 1 && (key in before ==> |after| == |before|)
  {
    assert |after| == |after.Keys| && |before| == |before.Keys|;
    if key in before {
      assert after.Keys == before.Keys;
    } else {
      assert after.Keys - {key} == before.Keys;
    }
  }

  // ---------- dropping full buckets changes no answer ----------

  /** Some buckets that have refilled completely may be missing. */
  ghost predicate DropsFull(before: Table, after: Table, now: real, p: Policy)
    requires p.Valid()
  {
    && after.Keys <= before.Keys && (forall k :: k in after ==> after[k] == before[k])
    && forall k :: k in before && k !in after ==> Level(before, k, now, p) == p.limit as real
  }

  /** A bucket idle for a period is full. */
  lemma IdleIsFull(m: Table, key: string, now: real, p: Policy)
    requires p.Valid() && Sound(m, now, p) && key in m && now - m[key].lastSeen >= p.period
    ensures Level(m, key, now, p) == p.limit as real
  {
    GainOfPeriod(p);
    GainMonotone(p, p.period, now - m[key].lastSeen);
  }

  /** Unless it has to drop the least recently seen, eviction drops only full buckets. */
  lemma EvictionDropsFull(before: Table, after: Table, now: real, p: Policy)
    requires p.Valid() && Sound(before, now, p) && Evicted(before, after, now, p.period)
    requires |before| < MAX_BUCKETS || |Recent(before, now, p.period)| < MAX_BUCKETS
    ensures DropsFull(before, after, now, p)
  {
    forall k | k in before && k !in after ensures Level(before, k, now, p) == p.limit as real {
      IdleIsFull(before, k, now, p);
    }
  }

  /** A run of the bounded table: before each request it may drop full buckets of other keys. */
  ghost predicate BoundedRun(states: seq<Table>, reqs: seq<Request>, p: Policy)
    requires p.Valid()
  {
    && |states| == |reqs| + 1 && states[0] == map[]
    && forall i :: 0 <= i < |reqs| ==> BoundedStep(states[i], states[i + 1], reqs[i], p)
  }

  ghost predicate BoundedStep(before: Table, after: Table, r: Request, p: Policy)
    requires p.Valid()
  {
    exists kept :: DropsFull(before, kept, r.time, p) && after == Update(kept, r.key, r.time, p)
  }

  /** The same levels from now on. */
  ghost predicate SameLevels(m: Table, m': Table, now: real, p: Policy)
    requires p.Valid()
  {
    forall k :: Level(m, k, now, p) == Level(m', k, now, p)
  }

  lemma DropKeepsLevels(before: Table, after: Table, now: real, p: Policy)
    requires p.Valid() && DropsFull(before, after, now, p)
    ensures SameLevels(before, after, now, p)
  {
  }

  lemma LaterLevels(m: Table, m': Table, s: real, t: real, p: Policy)
    requires p.Valid() && Sound(m, s, p) && Sound(m', s, p) && s <= t && SameLevels(m, m', s, p)
    ensures SameLevels(m, m', t, p)
  {
    forall k ensures Level(m, k, t, p) == Level(m', k, t, p) {
      LevelAdvances(m, k, s, t, p);
      LevelAdvances(m', k, s, t, p);
    }
  }

  lemma UpdateKeepsLevels(m: Table, m': Table, key: string, now: real, p: Policy)
    requires p.Valid() && Sound(m, now, p) && Sound(m', now, p) && SameLevels(m, m', now, p)
    ensures SameLevels(Update(m, key, now, p), Update(m', key, now, p), now, p)
  {
    forall k ensures Level(Update(m, key, now, p), k, now, p) == Level(Update(m', key, now, p), k, now, p) {
      UpdateLevel(m, key, now, p, k, now);
      UpdateLevel(m', key, now, p, k, now);
    }
  }

  lemma StepRefines(before: Table, m: Table, after: Table, last: real, r: Request, p: Policy)
    requires p.Valid() && last <= r.time
    requires Sound(before, last, p) && Sound(m, last, p) && SameLevels(before, m, last, p)
    requires BoundedStep(before, after, r, p)
    ensures SameLevels(before, m, r.time, p)
    ensures Sound(after, r.time, p) && SameLevels(after, Update(m, r.key, r.time, p), r.time, p)
  {
    var kept :| DropsFull(before, kept, r.time, p) && after == Update(kept, r.key, r.time, p);
    LaterLevels(before, m, last, r.time, p);
    DropKeepsLevels(before, kept, r.time, p);
    assert SameLevels(kept, m, r.time, p);
    UpdateKeepsLevels(kept, m, r.key, r.time, p);
    UpdateSound(kept, r.key, r.time, p);
  }

  ghost function Before(reqs: seq<Request>, n: nat): real
    requires 0 < |reqs| && n <= |reqs|
  {
    if n == 0 then reqs[0].time else reqs[n - 1].time
  }

  lemma {:induction false} BoundedAgrees(states: seq<Table>, reqs: seq<Request>, n: nat, p: Policy)
    requires p.Valid() && Timed(reqs) && BoundedRun(states, reqs, p) && 0 < |reqs| && n <= |reqs|
    ensures Sound(states[n], Before(reqs, n), p)
    ensures SameLevels(states[n], Run(reqs, n, p), Before(reqs, n), p)
  {
    if n > 0 {
      BoundedAgrees(states, reqs, n - 1, p);
      RunSound(reqs, n - 1, Before(reqs, n - 1), p);
      assert BoundedStep(states[n - 1], states[n - 1 + 1], reqs[n - 1], p);
      StepRefines(states[n - 1], Run(reqs, n - 1, p), states[n], Before(reqs, n - 1), reqs[n - 1], p);
    }
  }

  /** The bounded table, dropping only full buckets, answers every request as the unbounded one. */
  lemma BoundedRefinesUnbounded(states: seq<Table>, reqs: seq<Request>, i: nat, p: Policy)
    requires p.Valid() && Timed(reqs) && BoundedRun(states, reqs, p) && i < |reqs|
    ensures Reply(Level(states[i], reqs[i].key, reqs[i].time, p), p) == AnswerAt(reqs, i, p)
  {
    BoundedAgrees(states, reqs, i, p);
    RunSound(reqs, i, Before(reqs, i), p);
    LaterLevels(states[i], Run(reqs, i, p), Before(reqs, i), reqs[i].time, p);
  }

  /** `Check` is such a step, unless it has to drop the least recently seen. */
  lemma CheckIsBoundedStep(before: Table, kept: Table, after: Table, r: Request, p: Policy)
    requires p.Valid() && Sound(before, r.time, p) && after == Update(kept, r.key, r.time, p)
    requires if r.key in before then kept == before else Evicted(before, kept, r.time, p.period)
    requires |before| < MAX_BUCKETS || |Recent(before, r.time, p.period)| < MAX_BUCKETS
    ensures BoundedStep(before, after, r, p)
  {
    if r.key !in before {
      EvictionDropsFull(before, kept, r.time, p);
    }
  }

  // ---------- what any eviction can cost ----------

  /** A run of the table under any eviction at all that spares the requesting key. */
  ghost predicate AnyRun(states: seq<Table>, kept: seq<Table>, reqs: seq<Request>, p: Policy)
    requires p.Valid()
  {
    && |states| == |reqs| + 1 && |kept| == |reqs| && states[0] == map[]
    && forall i :: 0 <= i < |reqs| ==> AnyStep(states[i], kept[i], states[i + 1], reqs[i], p)
  }

  ghost predicate AnyStep(before: Table, kept: Table, after: Table, r: Request, p: Policy)
    requires p.Valid()
  {
    && kept.Keys <= before.Keys && (forall k :: k in kept ==> kept[k] == before[k])
    && (r.key in before ==> r.key in kept) && after == Update(kept, r.key, r.time, p)
  }

  ghost predicate Granted(states: seq<Table>, reqs: seq<Request>, i: nat, p: Policy)
    requires p.Valid() && i < |reqs| <= |states|
  {
    Reply(Level(states[i], reqs[i].key, reqs[i].time, p), p).allowed
  }

  /** Of requests i to n - 1: those granted to the key, and those at which its bucket was dropped. */
  ghost function GrantsIn(states: seq<Table>, reqs: seq<Request>, key: string, i: nat, n: nat, p: Policy): nat
    requires i <= n <= |reqs| <= |states| && p.Valid()
    decreases n
  {
    if n == i then 0
    else GrantsIn(states, reqs, key, i, n - 1, p) + if reqs[n - 1].key == key && Granted(states, reqs, n - 1, p) then 1 else 0
  }

  ghost function Drops(states: seq<Table>, kept: seq<Table>, key: string, i: nat, n: nat): nat
    requires i <= n <= |kept| && n <= |states|
    decreases n
  {
    if n == i then 0 else Drops(states, kept, key, i, n - 1) + if key in states[n - 1] && key !in kept[n - 1] then 1 else 0
  }

  lemma {:induction false} AnyRunSound(
    states: seq<Table>, kept: seq<Table>, reqs: seq<Request>, n: nat, now: real, p: Policy)
    requires p.Valid() && AnyRun(states, kept, reqs, p) && Timed(reqs) && n <= |reqs|
    requires n > 0 ==> reqs[n - 1].time <= now
    ensures Sound(states[n], now, p)
  {
    if n > 0 {
      var r := reqs[n - 1];
      AnyRunSound(states, kept, reqs, n - 1, r.time, p);
      assert AnyStep(states[n - 1], kept[n - 1], states[n - 1 + 1], r, p);
      UpdateSound(kept[n - 1], r.key, r.time, p);
    }
  }

  /** One request: a grant costs the key a token, a drop refills it. */
  lemma AnyStepLevel(before: Table, kept: Table, after: Table, r: Request, key: string, p: Policy)
    requires p.Valid() && Sound(before, r.time, p) && AnyStep(before, kept, after, r, p)
    ensures (if r.key == key && Reply(Level(before, key, r.time, p), p).allowed then 1.0 else 0.0) + Level(after, key, r.time, p)
      <= Level(before, key, r.time, p) + if key in before && key !in kept then p.limit as real else 0.0
  {
    LevelBounds(before, key, r.time, p);
    UpdateLevel(kept, r.key, r.time, p, key, r.time);
    assert Gain(p, r.time - r.time) == 0.0;
  }

  /** One limit for each drop of the key's bucket. */
  ghost function Allowance(states: seq<Table>, kept: seq<Table>, key: string, i: nat, n: nat, p: Policy): real
    requires i <= n <= |kept| && n <= |states|
  {
    Drops(states, kept, key, i, n) as real * p.limit as real
  }

  lemma AllowanceStep(states: seq<Table>, kept: seq<Table>, key: string, i: nat, n: nat, p: Policy)
    requires i < n <= |kept| && n <= |states|
    ensures Allowance(states, kept, key, i, n, p) == Allowance(states, kept, key, i, n - 1, p)
      + if key in states[n - 1] && key !in kept[n - 1] then p.limit as real else 0.0
    ensures Allowance(states, kept, key, i, i, p) == 0.0
  {
    var d := Drops(states, kept, key, i, n - 1);
    assert (d + 1) as real * p.limit as real == d as real * p.limit as real + p.limit as real;
  }

  /** Grants and level of a key, against the limit, what was earned, and the allowance. */
  ghost predicate WithinBudget(
    states: seq<Table>, kept: seq<Table>, reqs: seq<Request>, key: string, i: nat, n: nat, p: Policy)
    requires p.Valid() && i < n <= |reqs| && |states| == |reqs| + 1 && |kept| == |reqs|
  {
    GrantsIn(states, reqs, key, i, n, p) as real + Level(states[n], key, reqs[n - 1].time, p)
      <= p.limit as real + Gain(p, reqs[n - 1].time - reqs[i].time) + Allowance(states, kept, key, i, n, p)
  }

  /** Between two requests the level grows by no more than is earned. */
  lemma GapEarns(states: seq<Table>, kept: seq<Table>, reqs: seq<Request>, key: string, i: nat, n: nat, p: Policy)
    requires p.Valid() && AnyRun(states, kept, reqs, p) && Timed(reqs) && i < n < |reqs|
    ensures Level(states[n], key, reqs[n].time, p) <= Level(states[n], key, reqs[n - 1].time, p)
      + Gain(p, reqs[n].time - reqs[i].time) - Gain(p, reqs[n - 1].time - reqs[i].time)
  {
    AnyRunSound(states, kept, reqs, n, reqs[n - 1].time, p);
    LevelOverGap(states[n], key, reqs[i].time, reqs[n - 1].time, reqs[n].time, p);
  }

  lemma BudgetAtStart(states: seq<Table>, kept: seq<Table>, reqs: seq<Request>, key: string, i: nat, p: Policy)
    requires p.Valid() && AnyRun(states, kept, reqs, p) && Timed(reqs) && i < |reqs|
    ensures WithinBudget(states, kept, reqs, key, i, i + 1, p)
  {
    OneRequest(states, kept, reqs, key, i, i + 1, p);
    LevelBounds(states[i], key, reqs[i].time, p);
    assert Gain(p, reqs[i].time - reqs[i].time) == 0.0;
  }

  lemma BudgetStep(states: seq<Table>, kept: seq<Table>, reqs: seq<Request>, key: string, i: nat, n: nat, p: Policy)
    requires p.Valid() && AnyRun(states, kept, reqs, p) && Timed(reqs) && i < n < |reqs|
    requires WithinBudget(states, kept, reqs, key, i, n, p)
    ensures WithinBudget(states, kept, reqs, key, i, n + 1, p)
  {
    OneRequest(states, kept, reqs, key, i, n + 1, p);
    GapEarns(states, kept, reqs, key, i, n, p);
    AddUp(GrantsIn(states, reqs, key, i, n, p) as real, GrantsIn(states, reqs, key, i, n + 1, p) as real,
      Level(states[n], key, reqs[n - 1].time, p), Level(states[n], key, reqs[n].time, p),
      Level(states[n + 1], key, reqs[n].time, p),
      Allowance(states, kept, key, i, n, p), Allowance(states, kept, key, i, n + 1, p),
      Gain(p, reqs[n - 1].time - reqs[i].time), Gain(p, reqs[n].time - reqs[i].time), p.limit as real);
  }

  /** Each drop of a key's bucket costs at most one more limit, whatever is evicted and when. */
  lemma GrantsUnderEviction(
    states: seq<Table>, kept: seq<Table>, reqs: seq<Request>, key: string, i: nat, n: nat, p: Policy)
    requires p.Valid() && AnyRun(states, kept, reqs, p) && Timed(reqs) && i < n <= |reqs|
    ensures GrantsIn(states, reqs, key, i, n, p) as real + Level(states[n], key, reqs[n - 1].time, p)
      <= p.limit as real + Gain(p, reqs[n - 1].time - reqs[i].time) + Allowance(states, kept, key, i, n, p)
  {
    BudgetHolds(states, kept, reqs, key, i, n, p);
  }

  lemma {:induction false} BudgetHolds(
    states: seq<Table>, kept: seq<Table>, reqs: seq<Request>, key: string, i: nat, n: nat, p: Policy)
    requires p.Valid() && AnyRun(states, kept, reqs, p) && Timed(reqs) && i < n <= |reqs|
    ensures WithinBudget(states, kept, reqs, key, i, n, p)
    decreases n
  {
    if n == i + 1 {
      BudgetAtStart(states, kept, reqs, key, i, p);
    } else {
      BudgetHolds(states, kept, reqs, key, i, n - 1, p);
      BudgetStep(states, kept, reqs, key, i, n - 1, p);
    }
  }

  lemma AddUp(
    grants: real, grants': real, last: real, before: real, after: real, allowed: real, allowed': real,
    gain: real, gain': real, limit: real)
    requires grants + last <= limit + gain + allowed && before <= last + gain' - gain
    requires grants' + after - allowed' <= grants + before - allowed
    ensures grants' + after <= limit + gain' + allowed'
  {
  }

  /** What request n - 1 adds to the key's grants, level and allowance. */
  lemma OneRequest(
    states: seq<Table>, kept: seq<Table>, reqs: seq<Request>, key: string, i: nat, n: nat, p: Policy)
    requires p.Valid() && AnyRun(states, kept, reqs, p) && Timed(reqs) && i < n <= |reqs|
    ensures Sound(states[n - 1], reqs[n - 1].time, p)
    ensures GrantsIn(states, reqs, key, i, n, p) as real + Level(states[n], key, reqs[n - 1].time, p)
        - Allowance(states, kept, key, i, n, p)
      <= GrantsIn(states, reqs, key, i, n - 1, p) as real + Level(states[n - 1], key, reqs[n - 1].time, p)
        - Allowance(states, kept, key, i, n - 1, p)
    ensures GrantsIn(states, reqs, key, i, i, p) == 0 && Allowance(states, kept, key, i, i, p) == 0.0
  {
    var r := reqs[n - 1];
    AnyRunSound(states, kept, reqs, n - 1, r.time, p);
    assert AnyStep(states[n - 1], kept[n - 1], states[n - 1 + 1], r, p);
    AnyStepLevel(states[n - 1], kept[n - 1], states[n], r, key, p);
    AllowanceStep(states, kept, key, i, n, p);
    GrantsInStep(states, reqs, key, i, n, p);
  }

  lemma GrantsInStep(states: seq<Table>, reqs: seq<Request>, key: string, i: nat, n: nat, p: Policy)
    requires i < n <= |reqs| <= |states| && p.Valid()
    ensures GrantsIn(states, reqs, key, i, n, p) as real == GrantsIn(states, reqs, key, i, n - 1, p) as real
      + if reqs[n - 1].key == key && Granted(states, reqs, n - 1, p) then 1.0 else 0.0
  {
  }

  lemma LevelOverGap(m: Table, key: string, start: real, s: real, t: real, p: Policy)
    requires p.Valid() && Sound(m, s, p) && s <= t
    ensures Level(m, key, t, p) <= Level(m, key, s, p) + Gain(p, t - start) - Gain(p, s - start)
  {
    LevelAdvances(m, key, s, t, p);
    GainAdds(p, s - start, t - s);
    assert s - start + (t - s) == t - start;
  }

  // ---------- dropping any other bucket can be seen ----------

  /** The table after n requests for a key at one moment. */
  ghost function Burst(m: Table, key: string, now: real, n: nat, p: Policy): Table
    requires p.Valid()
  {
    if n == 0 then m else Update(Burst(m, key, now, n - 1, p), key, now, p)
  }

  ghost function BurstAnswer(m: Table, key: string, now: real, n: nat, p: Policy): Answer
    requires p.Valid()
  {
    Reply(Level(Burst(m, key, now, n, p), key, now, p), p)
  }

  lemma {:induction false} BurstLevel(m: Table, key: string, now: real, n: nat, p: Policy)
    requires p.Valid() && Sound(m, now, p)
    ensures Sound(Burst(m, key, now, n, p), now, p)
    ensures n as real <= Level(m, key, now, p) ==>
      Level(Burst(m, key, now, n, p), key, now, p) == Level(m, key, now, p) - n as real
  {
    LevelBounds(m, key, now, p);
    if n > 0 {
      var before := Burst(m, key, now, n - 1, p);
      BurstLevel(m, key, now, n - 1, p);
      UpdateSound(before, key, now, p);
      UpdateLevel(before, key, now, p, key, now);
      assert Gain(p, now - now) == 0.0;
      LevelBounds(before, key, now, p);
    }
  }

  lemma {:induction false} BurstSame(m: Table, m': Table, key: string, now: real, n: nat, p: Policy)
    requires p.Valid() && Sound(m, now, p) && Sound(m', now, p) && SameLevels(m, m', now, p)
    ensures SameLevels(Burst(m, key, now, n, p), Burst(m', key, now, n, p), now, p)
  {
    if n > 0 {
      BurstSame(m, m', key, now, n - 1, p);
      BurstLevel(m, key, now, n - 1, p);
      BurstLevel(m', key, now, n - 1, p);
      UpdateKeepsLevels(Burst(m, key, now, n - 1, p), Burst(m', key, now, n - 1, p), key, now, p);
    }
  }

  /** Dropping a bucket is unobservable exactly when it is full. */
  lemma DropUnobservableIff(m: Table, key: string, now: real, p: Policy)
    requires p.Valid() && Sound(m, now, p) && key in m
    ensures (forall n: nat :: BurstAnswer(m, key, now, n, p) == BurstAnswer(m - {key}, key, now, n, p))
      <==> Level(m, key, now, p) == p.limit as real
  {
    if Level(m, key, now, p) == p.limit as real {
      forall n: nat ensures BurstAnswer(m, key, now, n, p) == BurstAnswer(m - {key}, key, now, n, p) {
        BurstSame(m, m - {key}, key, now, n, p);
      }
    } else {
      var n := BurstTellsApart(m, key, now, p);
    }
  }

  lemma BurstTellsApart(m: Table, key: string, now: real, p: Policy) returns (n: nat)
    requires p.Valid() && Sound(m, now, p) && key in m && Level(m, key, now, p) != p.limit as real
    ensures BurstAnswer(m, key, now, n, p).allowed != BurstAnswer(m - {key}, key, now, n, p).allowed
  {
    LevelBounds(m, key, now, p);
    n := WholeTokens(Level(m, key, now, p), p.limit);
    assert Level(m - {key}, key, now, p) == p.limit as real;
    BurstAllows(m, key, now, n, p);
    BurstAllows(m - {key}, key, now, n, p);
  }

  lemma WholeTokens(level: real, limit: int) returns (n: nat)
    requires 0.0 <= level < limit as real
    ensures n as real <= level < n as real + 1.0 <= limit as real
  {
    n := level.Floor;
    NextWhole(n, limit);
  }

  lemma NextWhole(n: int, limit: int)
    requires n as real < limit as real
    ensures n as real + 1.0 <= limit as real
  {
    assert n < limit;
    assert n as real + 1.0 == (n + 1) as real;
  }

  lemma BurstAllows(m: Table, key: string, now: real, n: nat, p: Policy)
    requires p.Valid() && Sound(m, now, p) && n as real <= Level(m, key, now, p)
    ensures BurstAnswer(m, key, now, n, p).allowed <==> n as real + 1.0 <= Level(m, key, now, p)
  {
    BurstLevel(m, key, now, n, p);
  }

  // ---------- the shared table ----------

  /** A Redis hash and the time it expires. */
  datatype Stored = Stored(bucket: Bucket, expires: real)

  function Ceiling(x: real): int {
    0 - (0.0 - x).Floor
  }

  /** The level the script computes: an expired hash reads as none, and time never runs back. */
  function ScriptLevel(data: map<string, Stored>, key: string, now: real, p: Policy): real
    requires p.Valid()
  {
    if key in data && now < data[key].expires then
      var elapsed := now - data[key].bucket.lastSeen;
      Min(p.limit as real, data[key].bucket.tokens + Gain(p, if elapsed < 0.0 then 0.0 else elapsed))
    else p.limit as real
  }

  function ScriptUpdate(data: map<string, Stored>, key: string, now: real, p: Policy): map<string, Stored>
    requires p.Valid()
  {
    data[key := Stored(Bucket(Spend(ScriptLevel(data, key, now, p)), now), now + Ceiling(p.period * 2.0) as real)]
  }

  class SharedBuckets {
    var data: map<string, Stored>

    constructor ()
      ensures data == map[]
    {
      data := map[];
    }

    /** One evaluation of the script, which Redis runs as one step. */
    method Evaluate(key: string, now: real, p: Policy) returns (answer: Answer)
      requires p.Valid()
      modifies this
      ensures answer == Reply(ScriptLevel(old(data), key, now, p), p)
      ensures data == ScriptUpdate(old(data), key, now, p)
    {
      var refill := p.limit as real / p.period;
      var tokens, ts := p.limit as real, now;
      if key in data && now < data[key].expires {
        tokens, ts := data[key].bucket.tokens, data[key].bucket.lastSeen;
      }
      var elapsed := now - ts;
      if elapsed < 0.0 {
        elapsed := 0.0;
      }
      tokens := Min(p.limit as real, tokens + elapsed * refill);
      if tokens >= 1.0 {
        tokens := tokens - 1.0;
        answer := Answer(true, 0);
      } else {
        var retry := ((1.0 - tokens) / refill).Floor + 1;
        if retry < 1 {
          retry := 1;
        }
        answer := Answer(false, retry);
      }
      data := data[key := Stored(Bucket(tokens, now), now + Ceiling(p.period * 2.0) as real)];
    }
  }

  ghost function ScriptRun(reqs: seq<Request>, n: nat, p: Policy): map<string, Stored>
    requires n <= |reqs| && p.Valid()
  {
    if n == 0 then map[] else ScriptUpdate(ScriptRun(reqs, n - 1, p), reqs[n - 1].key, reqs[n - 1].time, p)
  }

  /** The stored hashes are the unbounded buckets, each with two periods to live. */
  ghost predicate Mirrors(data: map<string, Stored>, m: Table, p: Policy) {
    && data.Keys == m.Keys
    && forall k :: k in m ==> data[k].bucket == m[k] && data[k].expires >= m[k].lastSeen + p.period
  }

  lemma ScriptLevelSame(data: map<string, Stored>, m: Table, key: string, now: real, p: Policy)
    requires p.Valid() && Mirrors(data, m, p) && Sound(m, now, p)
    ensures ScriptLevel(data, key, now, p) == Level(m, key, now, p)
  {
    if key in m && now >= data[key].expires {
      IdleIsFull(m, key, now, p);
    }
  }

  lemma {:induction false} ScriptMirrors(reqs: seq<Request>, n: nat, p: Policy)
    requires n <= |reqs| && p.Valid() && Timed(reqs)
    ensures Mirrors(ScriptRun(reqs, n, p), Run(reqs, n, p), p)
  {
    if n > 0 {
      ScriptMirrors(reqs, n - 1, p);
      RunSound(reqs, n - 1, reqs[n - 1].time, p);
      ScriptLevelSame(ScriptRun(reqs, n - 1, p), Run(reqs, n - 1, p), reqs[n - 1].key, reqs[n - 1].time, p);
      assert Ceiling(p.period * 2.0) as real >= p.period;
    }
  }

  /** On one timeline the script gives every request the answer of the unbounded table. */
  lemma ScriptRefinesUnbounded(reqs: seq<Request>, i: nat, p: Policy)
    requires i < |reqs| && p.Valid() && Timed(reqs)
    ensures Reply(ScriptLevel(ScriptRun(reqs, i, p), reqs[i].key, reqs[i].time, p), p) == AnswerAt(reqs, i, p)
  {
    ScriptMirrors(reqs, i, p);
    RunSound(reqs, i, reqs[i].time, p);
    ScriptLevelSame(ScriptRun(reqs, i, p), Run(reqs, i, p), reqs[i].key, reqs[i].time, p);
  }

  /** A bucket spent a moment ago, of a limit of one: dropping it lets the caller through. */
  lemma SpentBucketShows()
    ensures var p, m := Policy(1, 60.0), map["k" := Bucket(0.0, 0.0)];
      && p.Valid() && Sound(m, 0.0, p) && Level(m, "k", 0.0, p) == 0.0
      && !BurstAnswer(m, "k", 0.0, 0, p).allowed && BurstAnswer(m - {"k"}, "k", 0.0, 0, p).allowed
  {
    var p, m := Policy(1, 60.0), map["k" := Bucket(0.0, 0.0)];
    assert Gain(p, 0.0) == 0.0;
    BurstAllows(m, "k", 0.0, 0, p);
    BurstAllows(m - {"k"}, "k", 0.0, 0, p);
  }
}
