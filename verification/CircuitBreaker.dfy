/** The circuit breaker. A call is two steps, because other calls run while it waits for its result:
    it starts, and later it succeeds, fails or is cancelled. Schedules interleave the steps of any number
    of calls. */
module CircuitBreaker {
  import opened Common

  datatype BreakerState = Closed | Open | HalfOpen

  datatype Params = Params(failureThreshold: int, recoveryTimeout: int, successThreshold: int)

  datatype View = View(state: BreakerState, failures: int, successes: int, lastFailure: Option<int>)

  const INITIAL := View(Closed, 0, 0, None)

  // ------------------------------------------------------------------
  // The three steps
  // ------------------------------------------------------------------

  function ShouldAttemptReset(p: Params, v: View, now: int): bool {
    v.lastFailure.Some? && now - v.lastFailure.value >= p.recoveryTimeout
  }

  predicate Admits(p: Params, v: View, now: int) {
    v.state == Open ==> ShouldAttemptReset(p, v, now)
  }

  function Started(p: Params, v: View, now: int): View {
    if v.state == Open && ShouldAttemptReset(p, v, now) then v.(state := HalfOpen, successes := 0) else v
  }

  function Succeeded(p: Params, v: View): View {
    if v.state != HalfOpen then v
    else if v.successes + 1 >= p.successThreshold then v.(state := Closed, failures := 0, successes := 0)
    else v.(successes := v.successes + 1)
  }

  function Failed(p: Params, v: View, now: int): View {
    var f := v.(failures := v.failures + 1, lastFailure := Some(now));
    if v.state == HalfOpen || f.failures >= p.failureThreshold then f.(state := Open) else f
  }

  class CircuitBreaker {
    const params: Params
    var state: BreakerState
    var failureCount: int
    var successCount: int
    var lastFailureTime: Option<int>

    constructor (params: Params)
      ensures this.params == params && Snapshot() == INITIAL
    {
      this.params := params;
      state, failureCount, successCount, lastFailureTime := Closed, 0, 0, None;
    }

    function Snapshot(): View
      reads this
    {
      View(state, failureCount, successCount, lastFailureTime)
    }

    /** The part of a call before it waits; a rejected call raises. */
    method BeginCall(now: int) returns (admitted: bool)
      modifies this
      ensures admitted == Admits(params, old(Snapshot()), now)
      ensures Snapshot() == Started(params, old(Snapshot()), now)
    {
      if state == Open {
        if ShouldAttemptReset(params, Snapshot(), now) {
          state := HalfOpen;
          successCount := 0;
        } else {
          return false;
        }
      }
      return true;
    }

    method EndWithSuccess()
      modifies this
      ensures Snapshot() == Succeeded(params, old(Snapshot()))
    {
      if state == HalfOpen {
        successCount := successCount + 1;
        if successCount >= params.successThreshold {
          Reset();
        }
      }
    }

    method EndWithFailure(now: int)
      modifies this
      ensures Snapshot() == Failed(params, old(Snapshot()), now)
    {
      failureCount := failureCount + 1;
      lastFailureTime := Some(now);
      if state == HalfOpen {
        state := Open;
      } else if failureCount >= params.failureThreshold {
        state := Open;
      }
    }

    method Reset()
      modifies this
      ensures Snapshot() == View(Closed, 0, 0, old(lastFailureTime))
    {
      state := Closed;
      failureCount := 0;
      successCount := 0;
    }
  }

  // ------------------------------------------------------------------
  // Schedules
  // ------------------------------------------------------------------

  /** A cancelled call raises past the breaker, which neither counts a success nor a failure. */
  datatype Event = Start(at: int) | Success(at: int) | Failure(at: int) | Cancelled(at: int)

  /** The breaker, the calls in flight, and the clock. */
  datatype System = System(view: View, inFlight: int, now: int)

  function Step(p: Params, s: System, e: Event): System {
    match e
    case Start(at) =>
      System(Started(p, s.view, at), if Admits(p, s.view, at) then s.inFlight + 1 else s.inFlight, at)
    case Success(at) => System(Succeeded(p, s.view), s.inFlight - 1, at)
    case Failure(at) => System(Failed(p, s.view, at), s.inFlight - 1, at)
    case Cancelled(at) => System(s.view, s.inFlight - 1, at)
  }

  function Run(p: Params, events: seq<Event>): System {
    if |events| == 0 then System(INITIAL, 0, 0)
    else Step(p, Run(p, events[..|events| - 1]), events[|events| - 1])
  }

  /** The clock does not go back, and only a call in flight can end. */
  ghost predicate Possible(p: Params, events: seq<Event>) {
    |events| == 0 ||
    var before := events[..|events| - 1];
    var e := events[|events| - 1];
    Possible(p, before) && e.at >= Run(p, before).now && (e.Start? || Run(p, before).inFlight > 0)
  }

  /** Successful completions since the latest failure. */
  function SuccessesSinceFailure(events: seq<Event>): nat {
    if |events| == 0 then 0
    else match events[|events| - 1]
      case Start(_) => SuccessesSinceFailure(events[..|events| - 1])
      case Success(_) => SuccessesSinceFailure(events[..|events| - 1]) + 1
      case Failure(_) => 0
      case Cancelled(_) => SuccessesSinceFailure(events[..|events| - 1])
  }

  /** Time of the latest failure. */
  function LatestFailure(events: seq<Event>): Option<int> {
    if |events| == 0 then None
    else if events[|events| - 1].Failure? then Some(events[|events| - 1].at)
    else LatestFailure(events[..|events| - 1])
  }

  ghost predicate Sound(p: Params, events: seq<Event>, s: System) {
    var v := s.view;
    && s.inFlight >= 0 && v.failures >= 0
    && (v.state == Closed <==> v.failures < p.failureThreshold)
    && v.lastFailure == LatestFailure(events)
    && (v.lastFailure.Some? ==> v.lastFailure.value <= s.now)
    && (v.state != Closed ==> v.lastFailure.Some?)
    && (v.state == HalfOpen ==>
          && s.now - v.lastFailure.value >= p.recoveryTimeout
          && 0 <= v.successes <= SuccessesSinceFailure(events)
          && (v.successes == 0 || v.successes < p.successThreshold))
  }

  /** In every schedule: closed exactly while the failure count is below the threshold, the recorded
      failure time is that of the latest failure, and half-open only once the timeout has passed since. */
  lemma {:induction false} EveryScheduleSound(p: Params, events: seq<Event>)
    requires p.failureThreshold >= 1 && Possible(p, events)
    ensures Sound(p, events, Run(p, events))
  {
    if |events| > 0 {
      EveryScheduleSound(p, events[..|events| - 1]);
    }
  }

  /** Failures since the breaker last closed, or since the start. */
  ghost function FailuresSinceClosed(p: Params, events: seq<Event>): nat {
    if |events| == 0 then 0
    else
      var before, e := events[..|events| - 1], events[|events| - 1];
      if Run(p, before).view.state != Closed && Run(p, events).view.state == Closed then 0
      else FailuresSinceClosed(p, before) + if e.Failure? then 1 else 0
  }

  /** Every failure counts once, whatever state it finds, and only closing forgets them. */
  lemma {:induction false} FailuresAreCounted(p: Params, events: seq<Event>)
    ensures Run(p, events).view.failures == FailuresSinceClosed(p, events)
  {
    if |events| > 0 {
      FailuresAreCounted(p, events[..|events| - 1]);
    }
  }

  /** A closed breaker stays closed through all failures before the threshold-th since it closed, and opens
      at exactly that one. */
  lemma OpensAtThreshold(p: Params, events: seq<Event>, at: int)
    requires p.failureThreshold >= 1 && Possible(p, events) && Run(p, events).view.state == Closed
    ensures FailuresSinceClosed(p, events) < p.failureThreshold
    ensures Run(p, events + [Failure(at)]).view.state ==
      if FailuresSinceClosed(p, events) + 1 == p.failureThreshold then Open else Closed
  {
    hide Possible, FailuresSinceClosed;
    EveryScheduleSound(p, events);
    FailuresAreCounted(p, events);
    assert (events + [Failure(at)])[..|events|] == events;
  }

  /** The first call needs a positive threshold: without one the breaker starts closed with a count
      that is not below the threshold. */
  lemma InitiallyClosedBelowThresholdIff(p: Params)
    ensures Sound(p, [], Run(p, [])) <==> p.failureThreshold >= 1
  {
  }

  /** The breaker closes again only on a success, the last of at least as many successes since the
      latest failure as its success threshold asks for. */
  lemma ClosesOnlyAfterSuccesses(p: Params, events: seq<Event>)
    requires p.failureThreshold >= 1 && Possible(p, events) && |events| > 0
    requires Run(p, events[..|events| - 1]).view.state != Closed && Run(p, events).view.state == Closed
    ensures events[|events| - 1].Success?
    ensures SuccessesSinceFailure(events) >= MaxInt(1, p.successThreshold)
    ensures Run(p, events).view.failures == 0
  {
    EveryScheduleSound(p, events[..|events| - 1]);
    EveryScheduleSound(p, events);
  }

  /** A call is admitted if and only if the breaker is closed or the recovery timeout has passed since
      the latest failure. */
  lemma AdmittedIff(p: Params, events: seq<Event>, at: int)
    requires p.failureThreshold >= 1 && Possible(p, events) && at >= Run(p, events).now
    ensures Admits(p, Run(p, events).view, at) <==>
      || Run(p, events).view.state == Closed
      || (LatestFailure(events).Some? && at - LatestFailure(events).value >= p.recoveryTimeout)
  {
    EveryScheduleSound(p, events);
  }

  // ------------------------------------------------------------------
  // Half-open does not mean one call
  // ------------------------------------------------------------------

  function Starts(at: int, n: nat): seq<Event> {
    if n == 0 then [] else Starts(at, n - 1) + [Start(at)]
  }

  function Successes(at: int, n: nat): seq<Event> {
    if n == 0 then [] else Successes(at, n - 1) + [Success(at)]
  }

  lemma AppendEvent(p: Params, events: seq<Event>, e: Event)
    requires Possible(p, events) && e.at >= Run(p, events).now && (e.Start? || Run(p, events).inFlight > 0)
    ensures Possible(p, events + [e]) && Run(p, events + [e]) == Step(p, Run(p, events), e)
    ensures LatestFailure(events + [e]) == if e.Failure? then Some(e.at) else LatestFailure(events)
  {
    assert (events + [e])[..|events + [e]| - 1] == events;
  }

  /** Once the timeout has passed, any number of further calls is admitted while half-open, although
      the documentation speaks of one: all of them are in flight together. */
  lemma {:induction false} HalfOpenAdmitsAny(p: Params, events: seq<Event>, at: int, n: nat)
    requires p.failureThreshold >= 1 && Possible(p, events) && at >= Run(p, events).now
    requires Run(p, events).view.state != Closed && LatestFailure(events).Some?
    requires at - LatestFailure(events).value >= p.recoveryTimeout
    ensures var all := events + Starts(at, n);
      && Possible(p, all) && Run(p, all).inFlight == Run(p, events).inFlight + n
      && Run(p, all).now == (if n == 0 then Run(p, events).now else at)
      && (n > 0 ==> Run(p, all).view.state == HalfOpen)
      && (n == 0 ==> Run(p, all).view.state != Closed)
      && LatestFailure(all) == LatestFailure(events)
  {
    hide Run, Possible, LatestFailure;
    if n == 0 {
      assert events + Starts(at, 0) == events;
    } else {
      var before := events + Starts(at, n - 1);
      HalfOpenAdmitsAny(p, events, at, n - 1);
      EveryScheduleSound(p, before);
      AppendEvent(p, before, Start(at));
      assert before + [Start(at)] == events + Starts(at, n);
    }
  }

  /** At every point of a schedule at which the breaker is half-open, at most one call is in flight. */
  ghost predicate ProbesAlone(p: Params, events: seq<Event>) {
    forall k :: 0 <= k <= |events| ==> ProbeAlone(Run(p, events[..k]))
  }

  predicate ProbeAlone(s: System) {
    s.view.state == HalfOpen ==> s.inFlight <= 1
  }

  /** Every call that is admitted while the breaker is not closed starts with nothing in flight. */
  ghost predicate ProbesStartIdle(p: Params, events: seq<Event>) {
    forall k :: 0 <= k < |events| ==> StartsIdle(p, Run(p, events[..k]), events[k])
  }

  predicate StartsIdle(p: Params, s: System, e: Event) {
    e.Start? && s.view.state != Closed && Admits(p, s.view, e.at) ==> s.inFlight == 0
  }

  /** Half-open allows one call at a time, as documented, if and only if the callers see to it: over any
      schedule, at most one call is in flight whenever the breaker is half-open exactly if every call that
      is admitted while the breaker is not closed starts with nothing in flight. */
  lemma {:induction false} SingleProbeIff(p: Params, events: seq<Event>)
    requires Possible(p, events)
    ensures Run(p, events).inFlight >= 0
    ensures ProbesAlone(p, events) <==> ProbesStartIdle(p, events)
  {
    hide Run, Possible, ProbeAlone, StartsIdle;
    if |events| == 0 {
      InitiallyIdle(p);
    } else {
      var n := |events| - 1;
      var before := events[..n];
      LastStep(p, events);
      SingleProbeIff(p, before);
      assert forall k :: 0 <= k <= n ==> before[..k] == events[..k];
      assert events[..n + 1] == events;
      ProbeStep(p, Run(p, before), events[n]);
      assert ProbesAlone(p, events) <==> ProbesAlone(p, before) && ProbeAlone(Run(p, events));
      assert ProbesStartIdle(p, events) <==> ProbesStartIdle(p, before) && StartsIdle(p, Run(p, before), events[n]);
      assert ProbesAlone(p, before) ==> ProbeAlone(Run(p, before[..n]));
    }
  }

  lemma InitiallyIdle(p: Params)
    ensures ProbeAlone(Run(p, [])) && Run(p, []).inFlight == 0
  {
  }

  lemma LastStep(p: Params, events: seq<Event>)
    requires Possible(p, events) && |events| > 0
    ensures var before := events[..|events| - 1]; var e := events[|events| - 1];
      && Possible(p, before) && Run(p, events) == Step(p, Run(p, before), e)
      && (!e.Start? ==> Run(p, before).inFlight > 0)
  {
  }

  lemma ProbeStep(p: Params, s: System, e: Event)
    requires s.inFlight >= 0 && (!e.Start? ==> s.inFlight > 0)
    ensures Step(p, s, e).inFlight >= 0
    ensures ProbeAlone(s) ==> (ProbeAlone(Step(p, s, e)) <==> StartsIdle(p, s, e))
  {
  }

  /** A schedule with two probes at once: after a failure and the timeout, two calls start. */
  lemma TwoProbes()
    ensures var p := Params(1, 60, 2);
      var events := [Start(0), Failure(0), Start(60), Start(60)];
      Possible(p, events) && Run(p, events).view.state == HalfOpen && Run(p, events).inFlight == 2
  {
    var p := Params(1, 60, 2);
    assert Possible(p, []) && Run(p, []) == System(INITIAL, 0, 0);
    AppendEvent(p, [], Start(0));
    AppendEvent(p, [Start(0)], Failure(0));
    AppendEvent(p, [Start(0), Failure(0)], Start(60));
    AppendEvent(p, [Start(0), Failure(0), Start(60)], Start(60));
    assert [] + [Start(0)] == [Start(0)];
    assert [Start(0)] + [Failure(0)] == [Start(0), Failure(0)];
    assert [Start(0), Failure(0)] + [Start(60)] == [Start(0), Failure(0), Start(60)];
    assert [Start(0), Failure(0), Start(60)] + [Start(60)] == [Start(0), Failure(0), Start(60), Start(60)];
  }

  // ------------------------------------------------------------------
  // Recovery
  // ------------------------------------------------------------------

  lemma {:induction false} SuccessesCount(p: Params, events: seq<Event>, at: int, n: nat)
    requires Possible(p, events) && at >= Run(p, events).now && Run(p, events).inFlight >= n
    requires Run(p, events).view.state == HalfOpen && Run(p, events).view.successes >= 0
    requires Run(p, events).view.successes + n < MaxInt(1, p.successThreshold)
    ensures var all := events + Successes(at, n);
      && Possible(p, all) && Run(p, all).inFlight == Run(p, events).inFlight - n && Run(p, all).now <= at
      && Run(p, all).view == Run(p, events).view.(successes := Run(p, events).view.successes + n)
  {
    hide Run, Possible, LatestFailure;
    if n == 0 {
      assert events + Successes(at, 0) == events;
    } else {
      var before := events + Successes(at, n - 1);
      SuccessesCount(p, events, at, n - 1);
      AppendEvent(p, before, Success(at));
      assert before + [Success(at)] == events + Successes(at, n);
    }
  }

  /** An open breaker recovers: once the timeout has passed since the latest failure, enough
      calls that start and then succeed close it. */
  lemma Recovers(p: Params, events: seq<Event>, at: int)
    requires p.failureThreshold >= 1 && Possible(p, events) && at >= Run(p, events).now
    requires Run(p, events).view.state == Open && LatestFailure(events).Some?
    requires at - LatestFailure(events).value >= p.recoveryTimeout
    ensures var n := MaxInt(1, p.successThreshold);
      var all := events + Starts(at, n) + Successes(at, n);
      Possible(p, all) && Run(p, all).view.state == Closed && Run(p, all).view.failures == 0
  {
    hide Run, Possible, LatestFailure, SuccessesSinceFailure;
    var n := MaxInt(1, p.successThreshold);
    EveryScheduleSound(p, events);
    HalfOpenAdmitsAny(p, events, at, n);
    FreshProbes(p, events, at, n);
    var started := events + Starts(at, n);
    SuccessesCount(p, started, at, n - 1);
    var before := started + Successes(at, n - 1);
    AppendEvent(p, before, Success(at));
    assert before + [Success(at)] == started + Successes(at, n);
  }

  /** The first probe resets the success count, the others leave it alone. */
  lemma {:induction false} FreshProbes(p: Params, events: seq<Event>, at: int, n: nat)
    requires n > 0 && Run(p, events).view.state == Open && ShouldAttemptReset(p, Run(p, events).view, at)
    ensures var v := Run(p, events + Starts(at, n)).view;
      v.state == HalfOpen && v.successes == 0
  {
    var before := events + Starts(at, n - 1);
    var all := events + Starts(at, n);
    assert all[..|all| - 1] == before;
    if n == 1 {
      assert before == events;
    } else {
      FreshProbes(p, events, at, n - 1);
    }
  }
}
