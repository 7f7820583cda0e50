/**
 Idempotency keys (`api/idempotency.py` and the middleware in `api/main.py`): the record
 table, and the protocol of requests that begin, run, complete or abandon.
 */
module Idempotency {
  import opened Options
  import opened Eviction

  const MAX_RECORDS: nat := 10000

  datatype Response = Response(status: int, body: string, mediaType: string)

  /** `response` is set by `complete`, together with `inFlight` cleared. */
  datatype Record = Record(fingerprint: string, createdAt: real, inFlight: bool, response: Option<Response>)

  type Records = map<string, Record>

  /** What `begin` says: go ahead, a stored response, still in progress, or another body. */
  datatype Outcome = Claimed | Replay(response: Option<Response>) | InProgress | BodyMismatch

  function Verdict(records: Records, key: string, fingerprint: string): Outcome {
    if key !in records then Claimed
    else if records[key].fingerprint != fingerprint then BodyMismatch
    else if records[key].inFlight then InProgress
    else Replay(records[key].response)
  }

  function Restrict(records: Records, kept: set<string>): Records {
    map k | k in records && k in kept :: records[k]
  }

  function Claim(records: Records, key: string, fingerprint: string, now: real): Records {
    if key in records then records else records[key := Record(fingerprint, now, true, None)]
  }

  function Completed(records: Records, key: string, response: Response): Records {
    if key in records then records[key := records[key].(inFlight := false, response := Some(response))] else records
  }

  function CreatedAt(records: Records): Dates {
    map k | k in records :: records[k].createdAt
  }

  /** The keys within their lifetime. */
  function Live(records: Records, now: real, ttl: real): set<string> {
    set k | k in records && now - records[k].createdAt <= ttl
  }

  /** `_evict_locked`: the expired, and at the cap the oldest quarter of the rest. */
  ghost predicate Keeps(records: Records, kept: set<string>, now: real, ttl: real) {
    var live := Live(records, now, ttl);
    if |live| < 10000 then kept == live
    else kept <= live && DropsOldest(CreatedAt(Restrict(records, live)), kept, |live| / 4)
  }

  // ---------- the store ----------

  /** A record of its own for the request that goes ahead: in flight since now, with its body's fingerprint. */
  predicate Reserved(r: Record, fingerprint: string, now: real) {
    r.fingerprint == fingerprint && r.createdAt == now && r.inFlight && r.response == None
  }

  /** The key's record, if it is still there, decides; the body is compared before anything else. */
  predicate AnswersFor(outcome: Outcome, r: Record, fingerprint: string) {
    && (outcome == BodyMismatch <==> r.fingerprint != fingerprint)
    && (outcome == InProgress <==> r.fingerprint == fingerprint && r.inFlight)
    && (outcome.Replay? <==> r.fingerprint == fingerprint && !r.inFlight)
    && (outcome.Replay? ==> outcome.response == r.response)
  }

  /** Every other key has what it had, unless it was evicted. */
  ghost predicate OthersKept(before: Records, after: Records, kept: set<string>, key: string) {
    && (forall k :: k != key ==> (k in after <==> k in before && k in kept))
    && (forall k :: k != key && k in after && k in before ==> after[k] == before[k])
  }

  class IdempotencyStore {
    const ttl: real
    var records: Records

    ghost predicate Valid()
      reads this
    {
      && |records| <= MAX_RECORDS
      && forall k :: k in records ==> (records[k].inFlight <==> records[k].response.None?)
    }

    constructor (ttl: real)
      ensures Valid() && this.ttl == ttl && records == map[]
    {
      this.ttl := ttl;
      records := map[];
    }

    method Evict(now: real) returns (ghost kept: set<string>)
      requires Valid()
      modifies this
      ensures Valid() && Keeps(old(records), kept, now, ttl)
      ensures records == Restrict(old(records), kept) && |records| < MAX_RECORDS
    {
      var live := Live(records, now, ttl);
      var remaining := Restrict(records, live);
      SizeOf(remaining, live);
      SmallerSet(live, records.Keys);
      kept := live;
      if |remaining| >= MAX_RECORDS {
        assert |remaining| == MAX_RECORDS;
        SizeOf(CreatedAt(remaining), live);
        var oldestGone := DropOldest(CreatedAt(remaining));
        kept := oldestGone;
        remaining := map k | k in remaining && k in oldestGone :: remaining[k];
        SizeOf(remaining, oldestGone);
      }
      records := remaining;
    }

    /** Claims the key, or says why not; the table stays within its cap. */
    method Begin(key: string, fingerprint: string, now: real) returns (outcome: Outcome, ghost kept: set<string>)
      requires Valid()
      modifies this
      ensures Valid() && Keeps(old(records), kept, now, ttl)
      ensures outcome == Verdict(Restrict(old(records), kept), key, fingerprint)
      ensures records == Claim(Restrict(old(records), kept), key, fingerprint, now)
    {
      kept := Evict(now);
      if key in records {
        var record := records[key];
        if record.fingerprint != fingerprint {
          return BodyMismatch, kept;
        }
        if record.inFlight {
          return InProgress, kept;
        }
        return Replay(record.response), kept;
      }
      GrowsByOne(records, key, Record(fingerprint, now, true, None));
      records := records[key := Record(fingerprint, now, true, None)];
      return Claimed, kept;
    }

    method Complete(key: string, response: Response)
      requires Valid()
      modifies this
      ensures Valid() && records == Completed(old(records), key, response)
    {
      if key !in records {
        return;
      }
      assert records.Keys == records[key := records[key]].Keys;
      var after := records[key := records[key].(inFlight := false, response := Some(response))];
      SizeOf(after, records.Keys);
      assert |records| == |records.Keys|;
      records := after;
    }

    method Abandon(key: string)
      requires Valid()
      modifies this
      ensures Valid() && records == old(records) - {key}
    {
      var after := records - {key};
      SizeOf(after, records.Keys - {key});
      assert |records| == |records.Keys|;
      records := after;
    }

    /**
     The middleware around one request that nothing interleaves with; `produced` is what the
     handler returns, None if it raises. Only a 2xx answer is remembered.
     */
    method Serve(key: string, fingerprint: string, now: real, produced: Option<Response>)
      returns (outcome: Outcome, ghost kept: set<string>)
      requires Valid()
      modifies this
      ensures Valid() && Keeps(old(records), kept, now, ttl)
      ensures outcome == Verdict(Restrict(old(records), kept), key, fingerprint)
      ensures outcome != Claimed ==> records == Restrict(old(records), kept)
      ensures outcome == Claimed && Remembered(produced) ==>
        records == Restrict(old(records), kept)[key := Record(fingerprint, now, false, produced)]
      ensures outcome == Claimed && !Remembered(produced) ==> records == Restrict(old(records), kept)
    {
      outcome, kept := Begin(key, fingerprint, now);
      if outcome == Claimed {
        if Remembered(produced) {
          Complete(key, produced.value);
        } else {
          Abandon(key);
        }
      }
    }
  }

  predicate Remembered(produced: Option<Response>) {
    produced.Some? && 200 <= produced.value.status < 300
  }

  lemma SizeOf<V>(m: map<string, V>, keys: set<string>)
    requires m.Keys == keys
    ensures |m| == |keys|
  {
  }

  lemma GrowsByOne(records: Records, key: string, r: Record)
    requires key !in records
    ensures |records[key := r]| == |records| + 1
  {
    assert records[key := r].Keys == records.Keys + {key};
    assert |records[key := r]| == |records[key := r].Keys| && |records| == |records.Keys|;
  }

  /**
   What `begin` does to the table and says: a key whose record is gone, or was never there, gets
   one of its own; else its record stays and decides. Other keys keep what they had.
   */
  lemma BeginMeans(before: Records, kept: set<string>, key: string, fingerprint: string, now: real)
    ensures var left := Restrict(before, kept);
      var after, outcome := Claim(left, key, fingerprint, now), Verdict(left, key, fingerprint);
      && OthersKept(before, after, kept, key)
      && (outcome == Claimed <==> key !in before || key !in kept)
      && key in after
      && (outcome == Claimed ==> Reserved(after[key], fingerprint, now))
      && (outcome != Claimed ==> key in before && after[key] == before[key] && AnswersFor(outcome, after[key], fingerprint))
  {
  }

  /** What `complete` does: the key's record, if there is one, is done and has the response. */
  lemma CompleteMeans(before: Records, key: string, response: Response)
    ensures var after := Completed(before, key, response);
      && after.Keys == before.Keys && (forall k :: k in before && k != key ==> after[k] == before[k])
      && (key in before ==>
            && !after[key].inFlight && after[key].response == Some(response)
            && after[key].fingerprint == before[key].fingerprint && after[key].createdAt == before[key].createdAt)
  {
    assert key in before ==> Completed(before, key, response).Keys == before.Keys + {key};
  }

  // ---------- many requests at once ----------

  /** The table and, for each request running its handler, the key it claimed. */
  datatype State = State(records: Records, running: map<nat, string>)

  /** `End` is the handler's return, None when it raised; a cancelled request ends without a word. */
  datatype Step =
    | Begin(request: nat, key: string, fingerprint: string, now: real, kept: set<string>)
    | End(request: nat, produced: Option<Response>)
    | Cancelled(request: nat)

  ghost predicate Enabled(s: State, step: Step, ttl: real) {
    match step
    case Begin(request, key, fingerprint, now, kept) =>
      request !in s.running && Keeps(s.records, kept, now, ttl)
    case End(request, produced) => request in s.running
    case Cancelled(request) => request in s.running
  }

  function Apply(s: State, step: Step): State {
    match step
    case Begin(request, key, fingerprint, now, kept) =>
      var left := Restrict(s.records, kept);
      State(Claim(left, key, fingerprint, now), if key in left then s.running else s.running[request := key])
    case End(request, produced) =>
      if request !in s.running then s
      else
        var key := s.running[request];
        State(if Remembered(produced) then Completed(s.records, key, produced.value) else s.records - {key}, s.running - {request})
    case Cancelled(request) => State(s.records, s.running - {request})
  }

  /** One key: a request running under it has its record, in flight, and runs alone. What
      becomes of other keys does not matter. */
  ghost predicate Inv(s: State, key: string) {
    && (forall r :: r in s.running && s.running[r] == key ==> key in s.records && s.records[key].inFlight)
    && (forall q, r :: q in s.running && r in s.running && s.running[q] == key && s.running[r] == key ==> q == r)
  }

  ghost predicate Runs(s: State, key: string) {
    exists r :: r in s.running && s.running[r] == key
  }

  /** A `begin`, of whatever key, spares this key's record while a request runs under it. */
  ghost predicate Spares(s: State, step: Step, key: string) {
    step.Begin? && Runs(s, key) ==> key in step.kept
  }

  /** The clock and the table's size make it so: below the cap, and this key's record, if a
      request runs under it, within its lifetime. */
  ghost predicate Roomy(s: State, step: Step, key: string, ttl: real) {
    step.Begin? && Runs(s, key) ==>
      |Live(s.records, step.now, ttl)| < MAX_RECORDS && (key in s.records ==> step.now - s.records[key].createdAt <= ttl)
  }

  lemma RoomySpares(s: State, step: Step, key: string, ttl: real)
    requires Inv(s, key) && Enabled(s, step, ttl) && Roomy(s, step, key, ttl)
    ensures Spares(s, step, key)
  {
    if step.Begin? && Runs(s, key) {
      var r :| r in s.running && s.running[r] == key;
      LiveIsKept(s.records, step.kept, key, step.now, ttl);
    }
  }

  lemma InvPreserved(s: State, step: Step, key: string, ttl: real)
    requires Inv(s, key) && Enabled(s, step, ttl) && Spares(s, step, key)
    ensures Inv(Apply(s, step), key)
  {
  }

  // ---------- runs ----------

  ghost function Exec(s: State, steps: seq<Step>, n: nat): State
    requires n <= |steps|
  {
    if n == 0 then s else Apply(Exec(s, steps, n - 1), steps[n - 1])
  }

  ghost predicate CanRun(s: State, steps: seq<Step>, ttl: real) {
    forall i :: 0 <= i < |steps| ==> Enabled(Exec(s, steps, i), steps[i], ttl)
  }

  ghost predicate RoomyRun(s: State, steps: seq<Step>, key: string, ttl: real) {
    forall i :: 0 <= i < |steps| ==> Roomy(Exec(s, steps, i), steps[i], key, ttl)
  }

  lemma {:induction false} InvHolds(s: State, steps: seq<Step>, key: string, n: nat, ttl: real)
    requires Inv(s, key) && CanRun(s, steps, ttl) && RoomyRun(s, steps, key, ttl) && n <= |steps|
    ensures Inv(Exec(s, steps, n), key)
  {
    if n > 0 {
      InvHolds(s, steps, key, n - 1, ttl);
      assert Enabled(Exec(s, steps, n - 1), steps[n - 1], ttl) && Roomy(Exec(s, steps, n - 1), steps[n - 1], key, ttl);
      RoomySpares(Exec(s, steps, n - 1), steps[n - 1], key, ttl);
      InvPreserved(Exec(s, steps, n - 1), steps[n - 1], key, ttl);
    }
  }

  /** From an empty table, two requests never run under a key whose record is within its
      lifetime, below the cap, at every `begin` they live through. */
  lemma OneAtATime(steps: seq<Step>, key: string, n: nat, ttl: real)
    requires CanRun(State(map[], map[]), steps, ttl) && RoomyRun(State(map[], map[]), steps, key, ttl) && n <= |steps|
    ensures var s := Exec(State(map[], map[]), steps, n);
      forall q, r :: q in s.running && r in s.running && s.running[q] == key && s.running[r] == key ==> q == r
  {
    InvHolds(State(map[], map[]), steps, key, n, ttl);
  }

  /** While a request runs under the key, every other one is told to wait, or that its body differs. */
  lemma OthersConflict(steps: seq<Step>, key: string, n: nat, ttl: real)
    requires CanRun(State(map[], map[]), steps, ttl) && RoomyRun(State(map[], map[]), steps, key, ttl) && n < |steps|
    ensures var s := Exec(State(map[], map[]), steps, n);
      Runs(s, key) && steps[n].Begin? && steps[n].key == key ==>
        && key in s.records
        && Answered(State(map[], map[]), steps, key, n) ==
             if s.records[key].fingerprint == steps[n].fingerprint then InProgress else BodyMismatch
  {
    var s := Exec(State(map[], map[]), steps, n);
    InvHolds(State(map[], map[]), steps, key, n, ttl);
    assert Enabled(s, steps[n], ttl) && Roomy(s, steps[n], key, ttl);
    if Runs(s, key) && steps[n].Begin? && steps[n].key == key {
      RoomySpares(s, steps[n], key, ttl);
    }
  }

  /** A second request starts under a key that is running exactly when eviction removes the first one's record. */
  lemma SecondExecutorIff(s: State, step: Step, first: nat, ttl: real)
    requires step.Begin? && Inv(s, step.key) && Enabled(s, step, ttl) && first in s.running && s.running[first] == step.key
    ensures step.request in Apply(s, step).running <==> step.key !in step.kept
    ensures step.key in step.kept ==>
      Verdict(Restrict(s.records, step.kept), step.key, step.fingerprint) ==
        if s.records[step.key].fingerprint == step.fingerprint then InProgress else BodyMismatch
  {
  }

  /** Two requests with one key, the second after the lifetime of the first one's record. */
  function Overtime(): seq<Step> {
    [Begin(0, "k", "body", 0.0, {}), Begin(1, "k", "body", 11.0, {})]
  }

  /** ... both run, under a lifetime of ten seconds. */
  lemma OvertimeRunsTwice()
    ensures CanRun(State(map[], map[]), Overtime(), 10.0)
    ensures var s := Exec(State(map[], map[]), Overtime(), 2);
      0 in s.running && 1 in s.running && s.running[0] == "k" && s.running[1] == "k"
  {
    var s0, steps := State(map[], map[]), Overtime();
    assert Live(s0.records, 0.0, 10.0) == {};
    assert Exec(s0, steps, 0) == s0;
    var s1 := Exec(s0, steps, 1);
    assert s1 == Apply(s0, steps[0]);
    assert "k" in s1.records && s1.records["k"].createdAt == 0.0;
    assert Live(s1.records, 11.0, 10.0) == {};
    assert Exec(s0, steps, 2) == Apply(s1, steps[1]);
  }

  /** Eviction keeps a record within its lifetime as long as the live ones are below the cap. */
  lemma LiveIsKept(records: Records, kept: set<string>, key: string, now: real, ttl: real)
    requires Keeps(records, kept, now, ttl) && |Live(records, now, ttl)| < MAX_RECORDS && key in records
    ensures key in kept <==> now - records[key].createdAt <= ttl
  {
  }

  // ---------- a stored response ----------

  /** At each `begin` of the run the table is below the cap, and a record made at `createdAt`
      within its lifetime. */
  ghost predicate InTime(s: State, steps: seq<Step>, createdAt: real, ttl: real) {
    forall i :: 0 <= i < |steps| && steps[i].Begin? ==> TimelyAt(Exec(s, steps, i), steps[i], createdAt, ttl)
  }

  ghost predicate TimelyAt(s: State, step: Step, createdAt: real, ttl: real)
    requires step.Begin?
  {
    |Live(s.records, step.now, ttl)| < MAX_RECORDS && step.now - createdAt <= ttl
  }

  lemma StoredStays(s: State, step: Step, key: string)
    requires Inv(s, key) && key in s.records && !s.records[key].inFlight
    requires step.Begin? ==> key in step.kept
    ensures key in Apply(s, step).records && Apply(s, step).records[key] == s.records[key]
    ensures Inv(Apply(s, step), key)
  {
    if step.End? && step.request in s.running {
      assert s.running[step.request] != key;
    }
  }

  /** The key's record is this one, and the invariant holds for it. */
  ghost predicate Has(s: State, key: string, r: Record) {
    key in s.records && s.records[key] == r && Inv(s, key)
  }

  lemma StoredOnce(s: State, step: Step, key: string, r: Record, ttl: real)
    requires Has(s, key, r) && !r.inFlight && Enabled(s, step, ttl)
    requires step.Begin? ==> TimelyAt(s, step, r.createdAt, ttl)
    ensures Has(Apply(s, step), key, r)
  {
    if step.Begin? {
      LiveIsKept(s.records, step.kept, key, step.now, ttl);
    }
    StoredStays(s, step, key);
  }

  ghost predicate InTimeAt(s: State, steps: seq<Step>, createdAt: real, i: nat, ttl: real)
    requires i < |steps|
  {
    && Enabled(Exec(s, steps, i), steps[i], ttl)
    && (steps[i].Begin? ==> TimelyAt(Exec(s, steps, i), steps[i], createdAt, ttl))
  }

  lemma {:induction false} StoredThrough(s: State, steps: seq<Step>, key: string, r: Record, n: nat, ttl: real)
    requires Has(s, key, r) && !r.inFlight && n <= |steps|
    requires forall i: nat :: i < |steps| ==> InTimeAt(s, steps, r.createdAt, i, ttl)
    ensures Has(Exec(s, steps, n), key, r)
  {
    if n > 0 {
      StoredThrough(s, steps, key, r, n - 1, ttl);
      assert InTimeAt(s, steps, r.createdAt, n - 1, ttl);
      StoredOnce(Exec(s, steps, n - 1), steps[n - 1], key, r, ttl);
    }
  }

  /** A stored response stays as it is while its record is within its lifetime, below the cap,
      whatever other keys do. */
  lemma StoredForGood(s: State, steps: seq<Step>, key: string, r: Record, n: nat, ttl: real)
    requires Has(s, key, r) && !r.inFlight
    requires CanRun(s, steps, ttl) && InTime(s, steps, r.createdAt, ttl) && n <= |steps|
    ensures Has(Exec(s, steps, n), key, r)
  {
    forall i: nat | i < |steps| ensures InTimeAt(s, steps, r.createdAt, i, ttl) {
      assert Enabled(Exec(s, steps, i), steps[i], ttl);
    }
    StoredThrough(s, steps, key, r, n, ttl);
  }

  /** Every later `begin` replays that response to the same body and rejects any other. */
  lemma ReplaysForGood(s: State, steps: seq<Step>, key: string, ttl: real)
    requires Inv(s, key) && key in s.records && !s.records[key].inFlight
    requires CanRun(s, steps, ttl) && InTime(s, steps, s.records[key].createdAt, ttl)
    ensures forall i :: 0 <= i < |steps| && steps[i].Begin? && steps[i].key == key ==>
      Answered(s, steps, key, i) ==
        if steps[i].fingerprint == s.records[key].fingerprint then Replay(s.records[key].response) else BodyMismatch
  {
    forall i | 0 <= i < |steps| && steps[i].Begin? && steps[i].key == key
      ensures Answered(s, steps, key, i) ==
        if steps[i].fingerprint == s.records[key].fingerprint then Replay(s.records[key].response) else BodyMismatch
    {
      StoredForGood(s, steps, key, s.records[key], i, ttl);
      assert Enabled(Exec(s, steps, i), steps[i], ttl) && TimelyAt(Exec(s, steps, i), steps[i], s.records[key].createdAt, ttl);
      LiveIsKept(Exec(s, steps, i).records, steps[i].kept, key, steps[i].now, ttl);
    }
  }

  /** What the `begin` at step i is told about the key. */
  ghost function Answered(s: State, steps: seq<Step>, key: string, i: nat): Outcome
    requires i < |steps| && steps[i].Begin?
  {
    Verdict(Restrict(Exec(s, steps, i).records, steps[i].kept), key, steps[i].fingerprint)
  }

  /** Completing stores what the handler produced. */
  lemma EndStores(s: State, request: nat, produced: Option<Response>)
    requires request in s.running && Inv(s, s.running[request]) && Remembered(produced)
    ensures var key := s.running[request];
      && key in Apply(s, End(request, produced)).records
      && Apply(s, End(request, produced)).records[key] == s.records[key].(inFlight := false, response := produced)
      && Inv(Apply(s, End(request, produced)), key)
  {
  }

  // ---------- how often a key is executed ----------

  ghost predicate Claims(s: State, step: Step, key: string) {
    step.Begin? && step.key == key && key !in Restrict(s.records, step.kept)
  }

  /** The step takes the key's record away: an abandon, or an eviction. */
  ghost predicate Removes(s: State, step: Step, key: string) {
    key in s.records && match step
      case Begin(_, _, _, _, kept) => key !in kept
      case End(request, produced) => request in s.running && s.running[request] == key && !Remembered(produced)
      case Cancelled(_) => false
  }

  ghost function ClaimCount(s: State, steps: seq<Step>, key: string, n: nat): nat
    requires n <= |steps|
  {
    if n == 0 then 0 else ClaimCount(s, steps, key, n - 1) + if Claims(Exec(s, steps, n - 1), steps[n - 1], key) then 1 else 0
  }

  ghost function RemoveCount(s: State, steps: seq<Step>, key: string, n: nat): nat
    requires n <= |steps|
  {
    if n == 0 then 0 else RemoveCount(s, steps, key, n - 1) + if Removes(Exec(s, steps, n - 1), steps[n - 1], key) then 1 else 0
  }

  /** In every run whatever, a key is executed once more than its record was taken away, or as often. */
  lemma {:induction false} ClaimsBalance(steps: seq<Step>, key: string, n: nat)
    requires n <= |steps|
    ensures var s := State(map[], map[]);
      ClaimCount(s, steps, key, n) ==
        RemoveCount(s, steps, key, n) + if key in Exec(s, steps, n).records then 1 else 0
  {
    if n > 0 {
      ClaimsBalance(steps, key, n - 1);
    }
  }
}
