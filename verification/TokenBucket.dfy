/**
 Token buckets over an unbounded table: what a limit of `limit` requests per `period`
 promises. The bounded table and the shared script are compared with this one.
 */
module TokenBucket {

  datatype Policy = Policy(limit: int, period: real) {
    ghost predicate Valid() {
      limit >= 1 && period > 0.0
    }

    function Rate(): real
      requires limit >= 1 && period > 0.0
    {
      limit as real / period
    }
  }

  datatype Bucket = Bucket(tokens: real, lastSeen: real)

  /** Whether the request may go on, and otherwise in how many seconds to try again. */
  datatype Answer = Answer(allowed: bool, retryAfter: int)

  type Table = map<string, Bucket>

  function Min(a: real, b: real): real {
    if a <= b then a else b
  }

  /** Tokens earned over a span. */
  function Gain(p: Policy, span: real): real
    requires p.Valid()
  {
    span * p.Rate()
  }

  /** What a key could draw on: a key without a bucket has a full one. */
  function Level(m: Table, key: string, now: real, p: Policy): real
    requires p.Valid()
  {
    if key in m then Min(p.limit as real, m[key].tokens + Gain(p, now - m[key].lastSeen)) else p.limit as real
  }

  function Reply(level: real, p: Policy): Answer
    requires p.Valid()
  {
    if level >= 1.0 then Answer(true, 0)
    else
      var wait := ((1.0 - level) / p.Rate()).Floor + 1;
      Answer(false, if wait > 1 then wait else 1)
  }

  function Spend(level: real): real {
    if level >= 1.0 then level - 1.0 else level
  }

  function Update(m: Table, key: string, now: real, p: Policy): Table
    requires p.Valid()
  {
    m[key := Bucket(Spend(Level(m, key, now, p)), now)]
  }

  /** No bucket is in debt, over its limit, or from the future. */
  ghost predicate Sound(m: Table, now: real, p: Policy) {
    forall k :: k in m ==> 0.0 <= m[k].tokens <= p.limit as real && m[k].lastSeen <= now
  }

  // ---------- arithmetic ----------

  lemma GainAdds(p: Policy, a: real, b: real)
    requires p.Valid()
    ensures Gain(p, a + b) == Gain(p, a) + Gain(p, b)
  {
  }

  lemma GainMonotone(p: Policy, a: real, b: real)
    requires p.Valid() && a <= b
    ensures Gain(p, a) <= Gain(p, b)
    ensures a < b ==> Gain(p, a) < Gain(p, b)
  {
    RatePositive(p);
    Scaled(b - a, p.Rate());
    GainAdds(p, a, b - a);
  }

  lemma Scaled(x: real, r: real)
    requires x >= 0.0 && r > 0.0
    ensures x * r >= 0.0 && (x > 0.0 ==> x * r > 0.0)
  {
  }

  lemma RatePositive(p: Policy)
    requires p.Valid()
    ensures p.Rate() > 0.0
  {
  }

  lemma Quotient(x: real, y: real)
    requires y > 0.0
    ensures x / y * y == x
  {
  }

  /** A period earns the whole limit; the limit-th part of it earns one token. */
  lemma GainOfPeriod(p: Policy)
    requires p.Valid()
    ensures Gain(p, p.period) == p.limit as real
    ensures Gain(p, p.period / p.limit as real) == 1.0
  {
    Quotient(p.limit as real, p.period);
    Quotient(p.period, p.limit as real);
    UnitGain(p.period / p.limit as real, p.limit as real, p.period, p.Rate());
  }

  lemma UnitGain(u: real, l: real, period: real, r: real)
    requires l > 0.0 && u * l == period && r * period == l
    ensures u * r == 1.0
  {
    assert (u * r - 1.0) * l == 0.0 by {
      assert (u * r) * l == r * (u * l);
    }
  }

  // ---------- levels ----------

  lemma LevelBounds(m: Table, key: string, now: real, p: Policy)
    requires p.Valid() && Sound(m, now, p)
    ensures 0.0 <= Level(m, key, now, p) <= p.limit as real
  {
    if key in m {
      GainMonotone(p, 0.0, now - m[key].lastSeen);
    }
  }

  /** Levels only refill with time. */
  lemma LevelAdvances(m: Table, key: string, s: real, t: real, p: Policy)
    requires p.Valid() && Sound(m, s, p) && s <= t
    ensures Level(m, key, t, p) == Min(p.limit as real, Level(m, key, s, p) + Gain(p, t - s))
  {
    GainMonotone(p, 0.0, t - s);
    if key in m {
      GainAdds(p, s - m[key].lastSeen, t - s);
      assert s - m[key].lastSeen + (t - s) == t - m[key].lastSeen;
    }
  }

  lemma UpdateSound(m: Table, key: string, now: real, p: Policy)
    requires p.Valid() && Sound(m, now, p)
    ensures Sound(Update(m, key, now, p), now, p)
  {
    LevelBounds(m, key, now, p);
  }

  /** A request changes the level of its own key only. */
  lemma UpdateLevel(m: Table, key: string, now: real, p: Policy, other: string, t: real)
    requires p.Valid() && Sound(m, now, p) && now <= t
    ensures Level(Update(m, key, now, p), other, t, p) ==
      if other == key then Min(p.limit as real, Spend(Level(m, key, now, p)) + Gain(p, t - now)) else Level(m, other, t, p)
  {
  }

  // ---------- runs ----------

  datatype Request = Request(time: real, key: string)

  ghost predicate Timed(reqs: seq<Request>) {
    forall i, j :: 0 <= i <= j < |reqs| ==> reqs[i].time <= reqs[j].time
  }

  /** The table after the first n requests. */
  ghost function Run(reqs: seq<Request>, n: nat, p: Policy): Table
    requires n <= |reqs| && p.Valid()
  {
    if n == 0 then map[] else Update(Run(reqs, n - 1, p), reqs[n - 1].key, reqs[n - 1].time, p)
  }

  ghost function LevelAt(reqs: seq<Request>, i: nat, p: Policy): real
    requires i < |reqs| && p.Valid()
  {
    Level(Run(reqs, i, p), reqs[i].key, reqs[i].time, p)
  }

  /** What request i is told. */
  ghost function AnswerAt(reqs: seq<Request>, i: nat, p: Policy): Answer
    requires i < |reqs| && p.Valid()
  {
    Reply(LevelAt(reqs, i, p), p)
  }

  lemma {:induction false} RunSound(reqs: seq<Request>, n: nat, now: real, p: Policy)
    requires n <= |reqs| && p.Valid() && Timed(reqs) && (n > 0 ==> reqs[n - 1].time <= now)
    ensures Sound(Run(reqs, n, p), now, p)
  {
    if n > 0 {
      RunSound(reqs, n - 1, reqs[n - 1].time, p);
      UpdateSound(Run(reqs, n - 1, p), reqs[n - 1].key, reqs[n - 1].time, p);
    }
  }

  /** Requests i to n - 1 granted to the key. */
  ghost function Grants(reqs: seq<Request>, key: string, i: nat, n: nat, p: Policy): nat
    requires i <= n <= |reqs| && p.Valid()
    decreases n
  {
    if n == i then 0
    else Grants(reqs, key, i, n - 1, p) + if reqs[n - 1].key == key && AnswerAt(reqs, n - 1, p).allowed then 1 else 0
  }

  /** What a key was granted since i and what it still has never exceed the limit plus what it earned. */
  lemma {:induction false} GrantsPlusLevel(reqs: seq<Request>, key: string, i: nat, n: nat, p: Policy)
    requires i < n <= |reqs| && p.Valid() && Timed(reqs)
    ensures Grants(reqs, key, i, n, p) as real + Level(Run(reqs, n, p), key, reqs[n - 1].time, p)
      <= p.limit as real + Gain(p, reqs[n - 1].time - reqs[i].time)
    decreases n
  {
    var m, now := Run(reqs, n - 1, p), reqs[n - 1].time;
    RunSound(reqs, n - 1, now, p);
    GainMonotone(p, 0.0, 0.0);
    LevelBounds(m, key, now, p);
    UpdateLevel(m, reqs[n - 1].key, now, p, key, now);
    assert Gain(p, now - now) == 0.0;
    if n - 1 > i {
      var before := reqs[n - 2].time;
      GrantsPlusLevel(reqs, key, i, n - 1, p);
      RunSound(reqs, n - 1, before, p);
      LevelAdvances(m, key, before, now, p);
      GainAdds(p, before - reqs[i].time, now - before);
      assert before - reqs[i].time + (now - before) == now - reqs[i].time;
    }
  }

  /** Any stretch of requests grants a key at most the limit plus what the stretch's time earns. */
  lemma WindowBound(reqs: seq<Request>, key: string, i: nat, n: nat, window: real, p: Policy)
    requires i < n <= |reqs| && p.Valid() && Timed(reqs) && reqs[n - 1].time - reqs[i].time <= window
    ensures Grants(reqs, key, i, n, p) as real <= p.limit as real + Gain(p, window)
  {
    var now := reqs[n - 1].time;
    GrantsPlusLevel(reqs, key, i, n, p);
    RunSound(reqs, n, now, p);
    LevelBounds(Run(reqs, n, p), key, now, p);
    GainMonotone(p, reqs[n - 1].time - reqs[i].time, window);
  }

  /** The key's requests are at least a limit-th of the period apart. */
  ghost predicate Spaced(reqs: seq<Request>, key: string, p: Policy)
    requires p.Valid()
  {
    forall i, j :: 0 <= i < j < |reqs| && reqs[i].key == key && reqs[j].key == key ==>
      reqs[j].time - reqs[i].time >= p.period / p.limit as real
  }

  lemma {:induction false} SpacedLevel(reqs: seq<Request>, key: string, n: nat, t: real, p: Policy)
    requires n <= |reqs| && p.Valid() && Timed(reqs) && (n > 0 ==> reqs[n - 1].time <= t)
    requires forall i :: 0 <= i < n && reqs[i].key == key ==> t - reqs[i].time >= p.period / p.limit as real
    ensures Level(Run(reqs, n, p), key, t, p) >= 1.0
  {
    if n > 0 {
      var last := reqs[n - 1];
      RunSound(reqs, n - 1, last.time, p);
      UpdateLevel(Run(reqs, n - 1, p), last.key, last.time, p, key, t);
      if last.key == key {
        LevelBounds(Run(reqs, n - 1, p), key, last.time, p);
        GainOfPeriod(p);
        GainMonotone(p, p.period / p.limit as real, t - last.time);
      } else {
        SpacedLevel(reqs, key, n - 1, t, p);
      }
    }
  }

  /** A caller that keeps its distance is never refused, whatever the others do. */
  lemma SpacedNeverRefused(reqs: seq<Request>, key: string, i: nat, p: Policy)
    requires i < |reqs| && reqs[i].key == key && p.Valid() && Timed(reqs) && Spaced(reqs, key, p)
    ensures AnswerAt(reqs, i, p) == Answer(true, 0)
  {
    SpacedLevel(reqs, key, i, reqs[i].time, p);
  }

  /** While nothing is granted to a key its level only refills. */
  lemma {:induction false} LevelSince(reqs: seq<Request>, i: nat, n: nat, t: real, p: Policy)
    requires i < n <= |reqs| && p.Valid() && Timed(reqs) && reqs[n - 1].time <= t
    requires Grants(reqs, reqs[i].key, i, n, p) == 0
    ensures Level(Run(reqs, n, p), reqs[i].key, t, p)
      == Min(p.limit as real, LevelAt(reqs, i, p) + Gain(p, t - reqs[i].time))
    decreases n
  {
    var m, last, key := Run(reqs, n - 1, p), reqs[n - 1], reqs[i].key;
    RunSound(reqs, n - 1, last.time, p);
    UpdateLevel(m, last.key, last.time, p, key, t);
    if n - 1 > i {
      if last.key == key {
        LevelSince(reqs, i, n - 1, last.time, p);
        LevelAdvances(m, key, last.time, t, p);
        GainAdds(p, last.time - reqs[i].time, t - last.time);
        GainMonotone(p, 0.0, t - last.time);
        assert last.time - reqs[i].time + (t - last.time) == t - reqs[i].time;
      } else {
        LevelSince(reqs, i, n - 1, t, p);
      }
    }
  }

  /** The advised wait suffices, and is less than a second too long. */
  lemma WaitIsTight(level: real, span: real, p: Policy)
    requires p.Valid() && level < 1.0
    ensures span >= Reply(level, p).retryAfter as real ==> level + Gain(p, span) >= 1.0
    ensures 0.0 <= level && 0.0 <= span < (Reply(level, p).retryAfter - 1) as real ==> level + Gain(p, span) < 1.0
  {
    RatePositive(p);
    var exact := (1.0 - level) / p.Rate();
    Quotient(1.0 - level, p.Rate());
    assert Gain(p, exact) == 1.0 - level;
    var r := Reply(level, p).retryAfter;
    if span >= r as real {
      GainMonotone(p, exact, span);
    } else if 0.0 <= span < (r - 1) as real {
      GainMonotone(p, span, exact);
    }
  }

  /**
   A refused caller is granted once the advised wait is over, and would still be refused more
   than a second before, if it was granted nothing in between.
   */
  lemma RetryAfterIsExact(reqs: seq<Request>, i: nat, j: nat, p: Policy)
    requires i < j < |reqs| && reqs[j].key == reqs[i].key && p.Valid() && Timed(reqs)
    requires Grants(reqs, reqs[i].key, i, j, p) == 0
    ensures !AnswerAt(reqs, i, p).allowed
    ensures reqs[j].time >= reqs[i].time + AnswerAt(reqs, i, p).retryAfter as real ==> AnswerAt(reqs, j, p).allowed
    ensures reqs[j].time < reqs[i].time + (AnswerAt(reqs, i, p).retryAfter - 1) as real ==> !AnswerAt(reqs, j, p).allowed
  {
    NoGrantAtStart(reqs, i, j, p);
    LevelSince(reqs, i, j, reqs[j].time, p);
    RunSound(reqs, i, reqs[i].time, p);
    LevelBounds(Run(reqs, i, p), reqs[i].key, reqs[i].time, p);
    WaitDecides(LevelAt(reqs, i, p), LevelAt(reqs, j, p), reqs[j].time - reqs[i].time, p);
  }

  lemma WaitDecides(before: real, after: real, span: real, p: Policy)
    requires p.Valid() && 0.0 <= before < 1.0 && span >= 0.0
    requires after == Min(p.limit as real, before + Gain(p, span))
    ensures span >= Reply(before, p).retryAfter as real ==> Reply(after, p).allowed
    ensures span < (Reply(before, p).retryAfter - 1) as real ==> !Reply(after, p).allowed
  {
    WaitIsTight(before, span, p);
  }

  lemma {:induction false} NoGrantAtStart(reqs: seq<Request>, i: nat, n: nat, p: Policy)
    requires i < n <= |reqs| && p.Valid() && Grants(reqs, reqs[i].key, i, n, p) == 0
    ensures !AnswerAt(reqs, i, p).allowed
    decreases n
  {
    if n > i + 1 {
      NoGrantAtStart(reqs, i, n - 1, p);
    }
  }
}
