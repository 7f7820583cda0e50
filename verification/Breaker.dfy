/** The circuit breaker around live price lookups (`pricing.py`). */
module Breaker {
  import opened Options

  const BREAKER_THRESHOLD: nat := 3
  const BREAKER_RESET_S: real := 300.0

  /** Failures in a row, and when the last one at or over the threshold was recorded. */
  datatype Health = Health(failures: nat, openedAt: real)

  type Breakers = map<string, Health>

  predicate IsOpen(h: Option<Health>, now: real) {
    h.Some? && h.value.failures >= BREAKER_THRESHOLD && now - h.value.openedAt < BREAKER_RESET_S
  }

  function Failed(h: Option<Health>, now: real): Health {
    var failures := (if h.Some? then h.value.failures else 0) + 1;
    var openedAt := if h.Some? then h.value.openedAt else 0.0;
    Health(failures, if failures >= BREAKER_THRESHOLD then now else openedAt)
  }

  function HealthOf(breakers: Breakers, cloud: string): Option<Health> {
    if cloud in breakers then Some(breakers[cloud]) else None
  }

  const CLOUDS: set<string> := {"azure", "aws", "gcp"}

  /** One failure more in a row; from the third on the window starts over. */
  predicate OneMore(before: Option<Health>, after: Health, now: real) {
    && (before.None? ==> after.failures == 1 && after.openedAt == 0.0)
    && (before.Some? ==> after.failures == before.value.failures + 1)
    && (before.Some? && after.failures >= 3 ==> after.openedAt == now)
    && (before.Some? && after.failures < 3 ==> after.openedAt == before.value.openedAt)
  }

  class PriceSource {
    var breakers: Breakers

    constructor ()
      ensures breakers == map[]
    {
      breakers := map[];
    }

    method RecordFailure(cloud: string, now: real)
      modifies this
      ensures forall c :: c != cloud ==> HealthOf(breakers, c) == HealthOf(old(breakers), c)
      ensures cloud in breakers && OneMore(HealthOf(old(breakers), cloud), breakers[cloud], now)
      ensures breakers == old(breakers)[cloud := Failed(HealthOf(old(breakers), cloud), now)]
    {
      var state := if cloud in breakers then breakers[cloud] else Health(0, 0.0);
      state := state.(failures := state.failures + 1);
      if state.failures >= BREAKER_THRESHOLD {
        state := state.(openedAt := now);
      }
      breakers := breakers[cloud := state];
    }

    method RecordSuccess(cloud: string)
      modifies this
      ensures HealthOf(breakers, cloud) == None
      ensures forall c :: c != cloud ==> HealthOf(breakers, c) == HealthOf(old(breakers), c)
    {
      breakers := breakers - {cloud};
    }

    /** `live_hourly`: `cached` is the price on disk, `fetch` what the endpoint would answer. */
    method LiveHourly(cloud: string, cached: Option<real>, checked: real, fetch: Option<real>, recorded: real)
      returns (price: Option<real>, fetched: bool)
      modifies this
      ensures fetched ==> cached.None? && cloud in {"azure", "aws", "gcp"}
      ensures cached.None? && cloud in {"azure", "aws", "gcp"} ==>
        fetched == if cloud in old(breakers) && old(breakers)[cloud].failures >= 3
                   then checked >= old(breakers)[cloud].openedAt + 300.0 else true
      ensures fetched <==> cached.None? && cloud in CLOUDS && !IsOpen(HealthOf(old(breakers), cloud), checked)
      ensures fetched && fetch.Some? ==> cloud !in breakers
      ensures fetched && fetch.None? ==> cloud in breakers && OneMore(HealthOf(old(breakers), cloud), breakers[cloud], recorded)
      ensures price == if cached.Some? then cached else if fetched then fetch else None
      ensures forall c :: c != cloud ==> HealthOf(breakers, c) == HealthOf(old(breakers), c)
      ensures HealthOf(breakers, cloud) ==
        if fetched then AfterFetch(HealthOf(old(breakers), cloud), fetch, recorded) else HealthOf(old(breakers), cloud)
    {
      fetched := false;
      if cached.Some? {
        return cached, false;
      }
      if cloud !in CLOUDS || IsOpen(HealthOf(breakers, cloud), checked) {
        return None, false;
      }
      fetched := true;
      price := fetch;
      if fetch.None? {
        RecordFailure(cloud, recorded);
      } else {
        RecordSuccess(cloud);
      }
    }
  }

  function AfterFetch(h: Option<Health>, fetch: Option<real>, recorded: real): Option<Health> {
    if fetch.None? then Some(Failed(h, recorded)) else None
  }

  // ---------- runs of calls for one cloud ----------

  /** One uncached lookup: when the breaker is asked, what the endpoint would say, when that is recorded. */
  datatype Call = Call(checked: real, fetch: Option<real>, recorded: real)

  /** One caller at a time. */
  ghost predicate Sequential(calls: seq<Call>) {
    && (forall i :: 0 <= i < |calls| ==> calls[i].checked <= calls[i].recorded)
    && (forall i, j :: 0 <= i < j < |calls| ==> calls[i].recorded <= calls[j].checked)
  }

  ghost function HealthAfter(calls: seq<Call>, n: nat): Option<Health>
    requires n <= |calls|
  {
    if n == 0 then None
    else if IsOpen(HealthAfter(calls, n - 1), calls[n - 1].checked) then HealthAfter(calls, n - 1)
    else AfterFetch(HealthAfter(calls, n - 1), calls[n - 1].fetch, calls[n - 1].recorded)
  }

  ghost predicate Fetches(calls: seq<Call>, i: nat)
    requires i < |calls|
  {
    !IsOpen(HealthAfter(calls, i), calls[i].checked)
  }

  /** How many of calls i to n - 1 reach the endpoint. */
  ghost function FetchCount(calls: seq<Call>, i: nat, n: nat): nat
    requires i <= n <= |calls|
    decreases n
  {
    if n == i then 0 else FetchCount(calls, i, n - 1) + if Fetches(calls, n - 1) then 1 else 0
  }

  ghost predicate AllFail(calls: seq<Call>, i: nat, n: nat)
    requires i <= n <= |calls|
  {
    forall k :: i <= k < n ==> calls[k].fetch.None?
  }

  /** Below the threshold every fetch is a counted failure; above it each fetch waited out a window. */
  ghost predicate Paced(h: Option<Health>, fetches: nat, start: real) {
    var failures := if h.Some? then h.value.failures else 0;
    if failures < BREAKER_THRESHOLD then fetches <= failures
    else fetches == 0 || (fetches as real - 3.0) * 300.0 <= h.value.openedAt - start
  }

  lemma {:induction false} FailuresArePaced(calls: seq<Call>, i: nat, n: nat)
    requires i < n <= |calls| && Sequential(calls) && AllFail(calls, i, n)
    ensures Paced(HealthAfter(calls, n), FetchCount(calls, i, n), calls[i].checked)
    ensures (FetchCount(calls, i, n) as real - 3.0) * 300.0 <= calls[n - 1].checked - calls[i].checked
    decreases n
  {
    var c := calls[n - 1];
    if n - 1 > i {
      FailuresArePaced(calls, i, n - 1);
    }
    if Fetches(calls, n - 1) {
      PacedStep(HealthAfter(calls, n - 1), FetchCount(calls, i, n - 1), calls[i].checked, c);
    } else if n - 1 > i {
      assert calls[n - 2].checked <= calls[n - 2].recorded <= c.checked;
    }
  }

  lemma PacedStep(h: Option<Health>, fetches: nat, start: real, c: Call)
    requires Paced(h, fetches, start) && start <= c.checked <= c.recorded && c.fetch.None?
    requires !IsOpen(h, c.checked)
    ensures Paced(AfterFetch(h, c.fetch, c.recorded), fetches + 1, start)
    ensures (fetches as real + 1.0 - 3.0) * 300.0 <= c.checked - start
  {
  }

  /** While the endpoint fails, any stretch of calls makes at most three fetches and one per window. */
  lemma FetchesAreBounded(calls: seq<Call>, i: nat, n: nat, window: real)
    requires i < n <= |calls| && Sequential(calls) && AllFail(calls, i, n)
    requires calls[n - 1].checked - calls[i].checked <= window
    ensures FetchCount(calls, i, n) <= BREAKER_THRESHOLD + (window / BREAKER_RESET_S).Floor
  {
    FailuresArePaced(calls, i, n);
    var extra := FetchCount(calls, i, n) - 3;
    assert extra as real * 300.0 <= window;
    assert extra as real <= window / 300.0;
  }

  /** After a success it takes three failures in a row to open the breaker, and the third does. */
  lemma {:induction false} ThirdFailureOpens(calls: seq<Call>, i: nat, n: nat)
    requires i < n <= |calls| && n - i <= 1 + BREAKER_THRESHOLD && Sequential(calls)
    requires Fetches(calls, i) && calls[i].fetch.Some? && AllFail(calls, i + 1, n)
    ensures FetchCount(calls, i, n) == n - i
    ensures HealthAfter(calls, n).None? <==> n == i + 1
    ensures n > i + 1 ==> HealthAfter(calls, n).value.failures == n - i - 1
    ensures (exists now: real :: IsOpen(HealthAfter(calls, n), now)) <==> n - i - 1 == BREAKER_THRESHOLD
    decreases n
  {
    if n > i + 1 {
      ThirdFailureOpens(calls, i, n - 1);
      assert calls[n - 1].fetch.None?;
      if n - i - 1 == BREAKER_THRESHOLD {
        assert IsOpen(HealthAfter(calls, n), calls[n - 1].recorded);
      }
    } else {
      assert FetchCount(calls, i, i + 1) == FetchCount(calls, i, i) + 1;
    }
  }

  /**
   Two callers that both ask once the window is over: the second is let through exactly when
   the first has not yet recorded its failure, so only callers in turn make a single probe.
   */
  lemma SecondProbeIff(h: Health, first: real, second: real, recorded: Option<real>)
    requires h.failures >= BREAKER_THRESHOLD && first - h.openedAt >= BREAKER_RESET_S && first <= second
    requires recorded.Some? ==> first <= recorded.value <= second < recorded.value + BREAKER_RESET_S
    ensures !IsOpen(Some(h), first)
    ensures !IsOpen(if recorded.Some? then Some(Failed(Some(h), recorded.value)) else Some(h), second) <==> recorded.None?
  {
  }
}
