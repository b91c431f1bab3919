/** The per-venue circuit breaker. `Stats` is its whole state as a value; the class
    updates the same fields in place and each of its methods is proved to be the
    corresponding function on that value. */
module CircuitBreaking {

  datatype CircuitState = Closed | Open | HalfOpen

  datatype Config = Config(failureThreshold: int, recoveryTimeout: real, successThreshold: int,
                           monitoringWindow: real, rateThreshold: real)

  datatype Stats = Stats(state: CircuitState, changedAt: real,
                         total: int, successes: int, failures: int, opens: int,
                         consecutiveFailures: int, consecutiveSuccesses: int,
                         failureTimes: seq<real>)

  function Fresh(now: real): Stats { Stats(Closed, now, 0, 0, 0, 0, 0, 0, []) }

  // Timestamps strictly later than the cutoff.
  function After(times: seq<real>, cutoff: real): (late: seq<real>)
    ensures |late| <= |times|
  {
    if times == [] then []
    else if times[0] > cutoff then [times[0]] + After(times[1..], cutoff)
    else After(times[1..], cutoff)
  }

  // --------------------------------------------------------- the operations

  function ToOpen(s: Stats, now: real): Stats {
    s.(state := Open, changedAt := now, opens := s.opens + 1)
  }

  function ToClosed(s: Stats, now: real): Stats {
    s.(state := Closed, changedAt := now, consecutiveFailures := 0)
  }

  function ToHalfOpen(s: Stats, now: real): Stats {
    s.(state := HalfOpen, changedAt := now, consecutiveSuccesses := 0)
  }

  // The clock is read once for the recent failures (t1) and again for the window the
  // rate is taken over (t2); opening stamps t3.
  function CheckFailureRate(c: Config, s: Stats, t1: real, t2: real, t3: real): Stats {
    var recent := |After(s.failureTimes, t1 - c.monitoringWindow)|;
    var inWindow := |After(s.failureTimes, t2 - c.monitoringWindow)|;
    if s.failureTimes != [] && recent >= c.failureThreshold && inWindow > 0
       && recent as real / inWindow as real >= c.rateThreshold && s.state == Closed
    then ToOpen(s, t3) else s
  }

  // Past the rate check: an open circuit lets one through once it has recovered.
  function Gate(c: Config, s: Stats, t4: real): (Stats, bool) {
    if s.state == Open then
      if t4 - s.changedAt >= c.recoveryTimeout then (ToHalfOpen(s, t4), true) else (s, false)
    else (s, true)
  }

  function Admit(c: Config, s: Stats, t1: real, t2: real, t3: real, t4: real): (Stats, bool) {
    Gate(c, CheckFailureRate(c, s, t1, t2, t3), t4)
  }

  function OnSuccess(c: Config, s: Stats, now: real): Stats {
    var s' := s.(total := s.total + 1, successes := s.successes + 1,
                 consecutiveSuccesses := s.consecutiveSuccesses + 1, consecutiveFailures := 0);
    if s'.state == HalfOpen && s'.consecutiveSuccesses >= c.successThreshold then ToClosed(s', now) else s'
  }

  function OnFailure(c: Config, s: Stats, t1: real, t2: real): Stats {
    var s' := s.(total := s.total + 1, failures := s.failures + 1,
                 consecutiveFailures := s.consecutiveFailures + 1, consecutiveSuccesses := 0,
                 failureTimes := After(s.failureTimes + [t1], t2 - c.monitoringWindow));
    if s'.state == HalfOpen then ToOpen(s', t2)
    else if s'.state == Closed && s'.consecutiveFailures >= c.failureThreshold then ToOpen(s', t2)
    else s'
  }

  function Reset(s: Stats, now: real): Stats {
    s.(state := Closed, changedAt := now, consecutiveFailures := 0, consecutiveSuccesses := 0)
  }

  // ------------------------------------------------------- the object itself

  class CircuitBreaker {
    const config: Config
    var state: CircuitState
    var changedAt: real
    var total: int
    var successes: int
    var failures: int
    var opens: int
    var consecutiveFailures: int
    var consecutiveSuccesses: int
    var failureTimes: seq<real>

    function View(): Stats
      reads this
    {
      Stats(state, changedAt, total, successes, failures, opens, consecutiveFailures, consecutiveSuccesses,
            failureTimes)
    }

    constructor (config: Config, now: real)
      ensures this.config == config && View() == Fresh(now)
    {
      this.config := config;
      state, changedAt := Closed, now;
      total, successes, failures, opens := 0, 0, 0, 0;
      consecutiveFailures, consecutiveSuccesses, failureTimes := 0, 0, [];
    }

    // A new process starts with a new breaker.
    method Renew(now: real)
      modifies this
      ensures View() == Fresh(now)
    {
      state, changedAt := Closed, now;
      total, successes, failures, opens := 0, 0, 0, 0;
      consecutiveFailures, consecutiveSuccesses, failureTimes := 0, 0, [];
    }

    method TransitionToOpen(now: real)
      modifies this
      ensures View() == ToOpen(old(View()), now)
    {
      state, changedAt, opens := Open, now, opens + 1;
    }

    method CheckRate(t1: real, t2: real, t3: real)
      modifies this
      ensures View() == CheckFailureRate(config, old(View()), t1, t2, t3)
    {
      if failureTimes == [] { return; }
      var recent := |After(failureTimes, t1 - config.monitoringWindow)|;
      if recent >= config.failureThreshold {
        var inWindow := |After(failureTimes, t2 - config.monitoringWindow)|;
        if inWindow > 0 {
          if recent as real / inWindow as real >= config.rateThreshold {
            if state == Closed { TransitionToOpen(t3); }
          }
        }
      }
    }

    // The locked section every call passes through before it runs.
    method BeforeCall(t1: real, t2: real, t3: real, t4: real) returns (admitted: bool)
      modifies this
      ensures (View(), admitted) == Admit(config, old(View()), t1, t2, t3, t4)
    {
      CheckRate(t1, t2, t3);
      admitted := true;
      if state == Open {
        if t4 - changedAt >= config.recoveryTimeout {
          state, changedAt, consecutiveSuccesses := HalfOpen, t4, 0;
        } else {
          admitted := false;
        }
      }
    }

    method CallSucceeded(now: real)
      modifies this
      ensures View() == OnSuccess(config, old(View()), now)
    {
      total, successes := total + 1, successes + 1;
      consecutiveSuccesses, consecutiveFailures := consecutiveSuccesses + 1, 0;
      if state == HalfOpen {
        if consecutiveSuccesses >= config.successThreshold {
          state, changedAt, consecutiveFailures := Closed, now, 0;
        }
      }
    }

    method CallFailed(t1: real, t2: real)
      modifies this
      ensures View() == OnFailure(config, old(View()), t1, t2)
    {
      total, failures := total + 1, failures + 1;
      consecutiveFailures, consecutiveSuccesses := consecutiveFailures + 1, 0;
      failureTimes := failureTimes + [t1];
      failureTimes := After(failureTimes, t2 - config.monitoringWindow);
      if state == HalfOpen {
        TransitionToOpen(t2);
      } else if state == Closed {
        if consecutiveFailures >= config.failureThreshold { TransitionToOpen(t2); }
      }
    }

    method ManualReset(now: real)
      modifies this
      ensures View() == Reset(old(View()), now)
    {
      state, changedAt := Closed, now;
      consecutiveFailures, consecutiveSuccesses := 0, 0;
    }
  }

  // ---------------------------------------------- every interleaving of calls

  // A finish may come at any time after its start, so any sequence of these is possible.
  datatype Event =
    | Start(t1: real, t2: real, t3: real, t4: real)
    | Success(now: real)
    | Failure(t1: real, t2: real)
    | OperatorReset(now: real)

  function Step(c: Config, s: Stats, e: Event): Stats {
    match e
    case Start(t1, t2, t3, t4) => Admit(c, s, t1, t2, t3, t4).0
    case Success(now) => OnSuccess(c, s, now)
    case Failure(t1, t2) => OnFailure(c, s, t1, t2)
    case OperatorReset(now) => Reset(s, now)
  }

  function Run(c: Config, s: Stats, es: seq<Event>): Stats {
    if es == [] then s else Step(c, Run(c, s, es[..|es| - 1]), es[|es| - 1])
  }

  ghost predicate Sound(c: Config, s: Stats) {
    && s.consecutiveFailures >= 0 && s.consecutiveSuccesses >= 0
    && (s.consecutiveFailures == 0 || s.consecutiveSuccesses == 0)
    && (s.state == Closed ==> s.consecutiveFailures < c.failureThreshold)
    && (s.state == HalfOpen ==> s.consecutiveSuccesses < c.successThreshold)
    && s.total == s.successes + s.failures
  }

  lemma {:induction false} BreakerInvariant(c: Config, now: real, es: seq<Event>)
    requires c.failureThreshold >= 1 && c.successThreshold >= 1
    ensures Sound(c, Run(c, Fresh(now), es))
  {
    if es != [] { BreakerInvariant(c, now, es[..|es| - 1]); }
  }

  // Only these edges are ever taken, each stamped with the reading it was taken at; an
  // operator's reset may also close from anywhere.
  predicate Edge(from: CircuitState, to: CircuitState) {
    from == to || (from == Closed && to == Open) || (from == Open && to == HalfOpen)
    || (from == HalfOpen && (to == Open || to == Closed))
  }

  lemma EdgesOnly(c: Config, s: Stats, t1: real, t2: real, t3: real, t4: real)
    ensures Edge(s.state, CheckFailureRate(c, s, t1, t2, t3).state)
    ensures Edge(s.state, Gate(c, s, t4).0.state)
    ensures Edge(s.state, OnSuccess(c, s, t1).state)
    ensures Edge(s.state, OnFailure(c, s, t1, t2).state)
    ensures Reset(s, t1).state == Closed && Reset(s, t1).changedAt == t1
    ensures OnSuccess(c, s, t1).changedAt == (if OnSuccess(c, s, t1).state != s.state then t1 else s.changedAt)
    ensures Gate(c, s, t4).0.changedAt == (if Gate(c, s, t4).0.state != s.state then t4 else s.changedAt)
  {
  }

  // Enough failures at the first reading, and often enough among those of the second.
  predicate Bursting(c: Config, s: Stats, t1: real, t2: real) {
    var recent := |After(s.failureTimes, t1 - c.monitoringWindow)|;
    var inWindow := |After(s.failureTimes, t2 - c.monitoringWindow)|;
    recent >= c.failureThreshold && inWindow > 0 && recent as real / inWindow as real >= c.rateThreshold
  }

  // A call is refused exactly when the circuit is open, as found or by its own rate check,
  // and the recovery timeout has not passed since; an admitted call leaves it closed or
  // half-open, and half-open exactly when it was open.
  lemma RefusedIff(c: Config, s: Stats, t1: real, t2: real, t3: real, t4: real)
    ensures var (s', admitted) := Admit(c, s, t1, t2, t3, t4);
            var opens := s.state == Closed && Bursting(c, s, t1, t2);
            && (!admitted <==> (s.state == Open && t4 - s.changedAt < c.recoveryTimeout)
                               || (opens && t4 - t3 < c.recoveryTimeout))
            && (!admitted <==> s'.state == Open)
            && (admitted ==> (s'.state == Closed <==> s.state == Closed && !opens))
            && (admitted && s.state != HalfOpen && s'.state == HalfOpen ==> s'.changedAt == t4)
  {
    hide After;
    assert After([], t2 - c.monitoringWindow) == [] by { NothingAfter(t2 - c.monitoringWindow); }
  }

  lemma NothingAfter(cutoff: real)
    ensures After([], cutoff) == []
  {
  }

  // -------------------------------------------------------- the failure window

  // Every failure ever recorded, never pruned.
  function History(es: seq<Event>): seq<real> {
    if es == [] then []
    else
      var earlier := History(es[..|es| - 1]);
      match es[|es| - 1]
      case Failure(t1, t2) => earlier + [t1]
      case _ => earlier
  }

  predicate Ordered(e: Event, from: real) {
    match e
    case Start(t1, t2, t3, t4) => from <= t1 <= t2 <= t3 <= t4
    case Success(now) => from <= now
    case Failure(t1, t2) => from <= t1 <= t2
    case OperatorReset(now) => from <= now
  }

  function EndOf(e: Event): real {
    match e
    case Start(t1, t2, t3, t4) => t4
    case Success(now) => now
    case Failure(t1, t2) => t2
    case OperatorReset(now) => now
  }

  function Clock(start: real, es: seq<Event>): real {
    if es == [] then start else EndOf(es[|es| - 1])
  }

  // The clock never runs backwards over the run.
  predicate NonDecreasing(start: real, es: seq<Event>) {
    es == [] ||
    (NonDecreasing(start, es[..|es| - 1]) && Ordered(es[|es| - 1], Clock(start, es[..|es| - 1])))
  }

  // Two stretches of a run, the second read off a clock that never ran back.
  lemma {:induction false} ClockJoins(start: real, a: seq<Event>, mid: real, b: seq<Event>)
    requires NonDecreasing(start, a) && Clock(start, a) <= mid && NonDecreasing(mid, b)
    ensures NonDecreasing(start, a + b)
    ensures Clock(start, a + b) <= Clock(mid, b)
  {
    if b == [] {
      assert a + b == a;
    } else {
      assert (a + b)[..|a + b| - 1] == a + b[..|b| - 1];
      ClockJoins(start, a, mid, b[..|b| - 1]);
    }
  }

  lemma {:induction false} AfterAppend(a: seq<real>, b: seq<real>, cutoff: real)
    ensures After(a + b, cutoff) == After(a, cutoff) + After(b, cutoff)
  {
    if a == [] {
      assert a + b == b;
    } else {
      assert (a + b)[1..] == a[1..] + b;
      AfterAppend(a[1..], b, cutoff);
    }
  }

  lemma {:induction false} AfterAfter(times: seq<real>, early: real, late: real)
    requires early <= late
    ensures After(After(times, early), late) == After(times, late)
  {
    if times != [] {
      AfterAfter(times[1..], early, late);
      if times[0] > early {
        assert After(times, early)[1..] == After(times[1..], early);
      }
    }
  }

  lemma {:induction false} AfterMonotone(times: seq<real>, early: real, late: real)
    requires early <= late
    ensures |After(times, late)| <= |After(times, early)|
  {
    if times != [] { AfterMonotone(times[1..], early, late); }
  }

  // Only a failure touches the timestamps: it adds itself and prunes.
  lemma StepTimes(c: Config, s: Stats, e: Event)
    ensures Step(c, s, e).failureTimes
         == if e.Failure? then After(s.failureTimes + [e.t1], e.t2 - c.monitoringWindow) else s.failureTimes
  {
  }

  // Pruning never loses a failure that a later look at the window would still see.
  lemma {:induction false} WindowAgrees(c: Config, start: real, es: seq<Event>, now: real)
    requires NonDecreasing(start, es) && now >= Clock(start, es)
    ensures After(Run(c, Fresh(start), es).failureTimes, now - c.monitoringWindow)
         == After(History(es), now - c.monitoringWindow)
  {
    hide Step, After;
    if es != [] {
      var earlier, e := es[..|es| - 1], es[|es| - 1];
      var s := Run(c, Fresh(start), earlier);
      WindowAgrees(c, start, earlier, now);
      StepTimes(c, s, e);
      if e.Failure? {
        var cutoff := now - c.monitoringWindow;
        AfterAppend(s.failureTimes, [e.t1], cutoff);
        AfterAppend(History(earlier), [e.t1], cutoff);
        AfterAfter(s.failureTimes + [e.t1], e.t2 - c.monitoringWindow, cutoff);
      }
    }
  }

  function FailuresSince(es: seq<Event>, cutoff: real): nat { |After(History(es), cutoff)| }

  // The rate compared with the threshold is never below one, so with a threshold of at
  // most one the gate is a count: a call goes through a closed circuit only when fewer
  // than `failureThreshold` failures of the whole history lie in the window, and it
  // always does when the earlier reading already counts fewer.
  lemma ClosedGateIsACount(c: Config, start: real, es: seq<Event>, t1: real, t2: real, t3: real, t4: real)
    requires c.failureThreshold >= 1 && c.rateThreshold <= 1.0
    requires NonDecreasing(start, es) && Clock(start, es) <= t1 <= t2 <= t3 <= t4
    requires Run(c, Fresh(start), es).state == Closed
    ensures var (s', admitted) := Admit(c, Run(c, Fresh(start), es), t1, t2, t3, t4);
            && (s'.state == Closed ==> admitted && FailuresSince(es, t2 - c.monitoringWindow) < c.failureThreshold)
            && (FailuresSince(es, t1 - c.monitoringWindow) < c.failureThreshold ==> s'.state == Closed && admitted)
            && (t1 == t2 ==> (s'.state == Closed <==> FailuresSince(es, t1 - c.monitoringWindow) < c.failureThreshold))
  {
    hide After, Run, History, Admit, NonDecreasing;
    var s := Run(c, Fresh(start), es);
    WindowAgrees(c, start, es, t1);
    WindowAgrees(c, start, es, t2);
    AfterMonotone(History(es), t1 - c.monitoringWindow, t2 - c.monitoringWindow);
    ClosedAdmission(c, s, t1, t2, t3, t4);
  }

  // A closed circuit opens exactly when both readings still see enough failures.
  lemma ClosedAdmission(c: Config, s: Stats, t1: real, t2: real, t3: real, t4: real)
    requires c.failureThreshold >= 1 && c.rateThreshold <= 1.0 && s.state == Closed
    requires |After(s.failureTimes, t2 - c.monitoringWindow)| <= |After(s.failureTimes, t1 - c.monitoringWindow)|
    ensures var (s', admitted) := Admit(c, s, t1, t2, t3, t4);
            var recent := |After(s.failureTimes, t1 - c.monitoringWindow)|;
            var inWindow := |After(s.failureTimes, t2 - c.monitoringWindow)|;
            && (s'.state == Closed <==> recent < c.failureThreshold || inWindow == 0)
            && (s'.state == Closed ==> admitted)
  {
    var recent := |After(s.failureTimes, t1 - c.monitoringWindow)|;
    var inWindow := |After(s.failureTimes, t2 - c.monitoringWindow)|;
    if inWindow > 0 { RateAtLeastOne(recent, inWindow); }
  }

  lemma RateAtLeastOne(recent: nat, inWindow: nat)
    requires 0 < inWindow <= recent
    ensures recent as real / inWindow as real >= 1.0
  {
  }

  // ------------------------------------------------------- how long it stays open

  predicate NoReset(es: seq<Event>) { forall e :: e in es ==> !e.OperatorReset? }

  // No call of the run came at or after this time.
  predicate CallsBefore(es: seq<Event>, end: real) { forall e :: e in es && e.Start? ==> e.t4 < end }

  // The reading an opening event is stamped with.
  function OpenedBy(e: Event): real
    requires e.Failure? || e.Start?
  {
    if e.Failure? then e.t2 else e.t3
  }

  lemma OpeningStamp(c: Config, s: Stats, e: Event)
    requires s.state != Open && Step(c, s, e).state == Open
    ensures (e.Failure? || e.Start?) && Step(c, s, e).changedAt == OpenedBy(e)
  {
    hide After;
  }

  // Late successes and failures, and calls before the timeout, leave it as it is.
  lemma {:induction false} OpenStays(c: Config, s: Stats, es: seq<Event>)
    requires s.state == Open && NoReset(es) && CallsBefore(es, s.changedAt + c.recoveryTimeout)
    ensures Run(c, s, es).state == Open && Run(c, s, es).changedAt == s.changedAt
  {
    hide After;
    if es != [] {
      var init, e := es[..|es| - 1], es[|es| - 1];
      assert e in es;
      OpenStays(c, s, init);
    }
  }

  lemma {:induction false} ClockBounds(start: real, es: seq<Event>, i: nat)
    requires NonDecreasing(start, es) && i < |es|
    ensures EndOf(es[i]) <= Clock(start, es)
  {
    if i < |es| - 1 { ClockBounds(start, es[..|es| - 1], i); }
  }

  // The recovery timeout is kept over whole runs: after the event that opened the circuit,
  // with no operator reset since, no call is let through before the timeout has passed, and
  // the first call to come later is.
  lemma NoCallBeforeRecovery(c: Config, start: real, before: seq<Event>, e: Event, es: seq<Event>,
                             t1: real, t2: real, t3: real, t4: real)
    requires Run(c, Fresh(start), before).state != Open && Run(c, Fresh(start), before + [e]).state == Open
    requires NoReset(es) && NonDecreasing(start, before + [e] + es + [Start(t1, t2, t3, t4)])
    ensures e.Failure? || e.Start?
    ensures var admitted := Admit(c, Run(c, Fresh(start), before + [e] + es), t1, t2, t3, t4).1;
            && (admitted ==> t4 - OpenedBy(e) >= c.recoveryTimeout)
            && (CallsBefore(es, OpenedBy(e) + c.recoveryTimeout) ==>
                  (admitted <==> t4 - OpenedBy(e) >= c.recoveryTimeout))
  {
    hide Run, Step, Admit, NonDecreasing;
    RunLast(c, Fresh(start), before, e);
    OpeningStamp(c, Run(c, Fresh(start), before), e);
    var s, upTo := Run(c, Fresh(start), before + [e]), before + [e] + es;
    RunAppend(c, Fresh(start), before + [e], es);
    if t4 - OpenedBy(e) < c.recoveryTimeout {
      forall x | x in es && x.Start? ensures x.t4 < OpenedBy(e) + c.recoveryTimeout {
        var i :| 0 <= i < |es| && es[i] == x;
        EarlierEnds(start, upTo, Start(t1, t2, t3, t4), |before| + 1 + i);
      }
    }
    if CallsBefore(es, OpenedBy(e) + c.recoveryTimeout) {
      OpenStays(c, s, es);
      RefusedIff(c, Run(c, s, es), t1, t2, t3, t4);
    }
  }

  lemma EarlierEnds(start: real, es: seq<Event>, last: Event, i: nat)
    requires NonDecreasing(start, es + [last]) && i < |es|
    ensures EndOf(es[i]) <= EndOf(last)
  {
    assert (es + [last])[..|es|] == es;
    ClockBounds(start, es + [last], i);
  }

  // ---------------------------------------------------------- what the counters count

  function Successes(es: seq<Event>): nat {
    if es == [] then 0 else Successes(es[..|es| - 1]) + if es[|es| - 1].Success? then 1 else 0
  }

  function Failures(es: seq<Event>): nat {
    if es == [] then 0 else Failures(es[..|es| - 1]) + if es[|es| - 1].Failure? then 1 else 0
  }

  // Failures since the last success or reset.
  function FailuresInARow(es: seq<Event>, before: int): int {
    if es == [] then before
    else
      match es[|es| - 1]
      case Failure(_, _) => FailuresInARow(es[..|es| - 1], before) + 1
      case Start(_, _, _, _) => FailuresInARow(es[..|es| - 1], before)
      case _ => 0
  }

  // Left not open and found open, or half-open again within one call.
  predicate Opens(before: CircuitState, after: CircuitState) {
    (before != Open && after == Open) || (before == Closed && after == HalfOpen)
  }

  function Openings(c: Config, s: Stats, es: seq<Event>): nat {
    if es == [] then 0
    else
      var init := es[..|es| - 1];
      Openings(c, s, init) + if Opens(Run(c, s, init).state, Run(c, s, es).state) then 1 else 0
  }

  lemma StepCounts(c: Config, s: Stats, e: Event)
    ensures var s' := Step(c, s, e);
            && s'.successes == s.successes + (if e.Success? then 1 else 0)
            && s'.failures == s.failures + (if e.Failure? then 1 else 0)
            && s'.total == s.total + (if e.Success? || e.Failure? then 1 else 0)
            && s'.opens == s.opens + (if Opens(s.state, s'.state) then 1 else 0)
            && s'.consecutiveFailures == (if e.Failure? then s.consecutiveFailures + 1
                                          else if e.Start? then s.consecutiveFailures else 0)
            && s'.consecutiveSuccesses == (if e.Success? then s.consecutiveSuccesses + 1
                                           else if e.Start? && (s.state == HalfOpen || s'.state != HalfOpen)
                                           then s.consecutiveSuccesses else 0)
  {
    hide After;
  }

  lemma {:induction false} CountersCount(c: Config, s: Stats, es: seq<Event>)
    ensures var s' := Run(c, s, es);
            && s'.successes == s.successes + Successes(es) && s'.failures == s.failures + Failures(es)
            && s'.total == s.total + Successes(es) + Failures(es)
            && s'.opens == s.opens + Openings(c, s, es)
            && s'.consecutiveFailures == FailuresInARow(es, s.consecutiveFailures)
  {
    hide Step;
    if es != [] {
      CountersCount(c, s, es[..|es| - 1]);
      StepCounts(c, Run(c, s, es[..|es| - 1]), es[|es| - 1]);
    }
  }

  // A failure opens a closed circuit exactly when it completes the threshold in a row, and
  // a half-open one always; a late one leaves an open circuit and its stamp alone.
  lemma FailureOpensIff(c: Config, s0: Stats, es: seq<Event>, t1: real, t2: real)
    ensures var s, s' := Run(c, s0, es), Run(c, s0, es + [Failure(t1, t2)]);
            match s.state
            case Closed => (s'.state == Open <==>
                              FailuresInARow(es, s0.consecutiveFailures) + 1 >= c.failureThreshold)
                           && (s'.state == Open ==> s'.changedAt == t2)
                           && (s'.state != Open ==> s'.state == Closed)
            case HalfOpen => s'.state == Open && s'.changedAt == t2
            case Open => s'.state == Open && s'.changedAt == s.changedAt
  {
    hide Run, FailuresInARow, After;
    RunLast(c, s0, es, Failure(t1, t2));
    CountersCount(c, s0, es);
  }

  // A circuit half-opened by a call is closed by exactly the threshold of successes.
  lemma {:induction false} TrialCloses(c: Config, s: Stats, es: seq<Event>)
    requires s.state == HalfOpen && s.consecutiveSuccesses == 0 && c.successThreshold >= 1
    requires forall e :: e in es ==> e.Success?
    ensures Run(c, s, es).state == (if |es| >= c.successThreshold then Closed else HalfOpen)
    ensures |es| < c.successThreshold ==> Run(c, s, es).consecutiveSuccesses == |es|
  {
    if es != [] {
      assert es[|es| - 1] in es;
      TrialCloses(c, s, es[..|es| - 1]);
    }
  }

  // ---------------------------------------------------------- what follows

  // The execution engine's own thresholds.
  const ENGINE_CONFIG := Config(4, 120.0, 3, 300.0, 0.5)

  // Under them: two minutes open, and open on the fourth failure in a row.
  lemma EngineThresholds(s: Stats, t1: real, t2: real, t3: real, t4: real)
    ensures s.state == Open ==> (Admit(ENGINE_CONFIG, s, t1, t2, t3, t4).1 <==> t4 - s.changedAt >= 120.0)
    ensures s.state == Closed ==>
              (OnFailure(ENGINE_CONFIG, s, t1, t2).state == Open <==> s.consecutiveFailures >= 3)
    ensures s.state == HalfOpen ==> (OnSuccess(ENGINE_CONFIG, s, t1).state == Closed <==> s.consecutiveSuccesses >= 2)
    ensures OnFailure(ENGINE_CONFIG, s, t1, t2).failureTimes == After(s.failureTimes + [t1], t2 - 300.0)
  {
    hide After;
    RefusedIff(ENGINE_CONFIG, s, t1, t2, t3, t4);
  }

  const BURST := [Failure(0.0, 0.0), Failure(0.0, 0.0), Failure(0.0, 0.0), Failure(0.0, 0.0)]
  const RECOVERY := [Start(120.0, 120.0, 120.0, 120.0), Success(120.0), Success(120.0), Success(120.0)]

  // Closing clears no timestamps: a circuit that recovered by three successes refuses
  // the very next call while the old burst is still in the window ...
  lemma RecoveryIsUndone()
    ensures var s := Run(ENGINE_CONFIG, Fresh(0.0), BURST + RECOVERY);
            s.state == Closed && !Admit(ENGINE_CONFIG, s, 121.0, 121.0, 121.0, 121.0).1
  {
    hide After, Run, OnFailure;
    var c, s0 := ENGINE_CONFIG, Fresh(0.0);
    BurstOpens();
    RunAppend(c, s0, BURST, RECOVERY);
    FourInWindow(120.0);
    FourInWindow(121.0);
    RunFour(c, Run(c, s0, BURST), RECOVERY);
  }

  // ... and so does one that an operator reset.
  lemma ResetIsUndone()
    ensures var s := Run(ENGINE_CONFIG, Fresh(0.0), BURST + [OperatorReset(1.0)]);
            s.state == Closed && !Admit(ENGINE_CONFIG, s, 2.0, 2.0, 2.0, 2.0).1
  {
    hide After, Run, OnFailure;
    var c, s0 := ENGINE_CONFIG, Fresh(0.0);
    BurstOpens();
    RunLast(c, s0, BURST, OperatorReset(1.0));
    FourInWindow(2.0);
  }

  lemma RunLast(c: Config, s: Stats, es: seq<Event>, e: Event)
    ensures Run(c, s, es + [e]) == Step(c, Run(c, s, es), e)
  {
    assert (es + [e])[..|es + [e]| - 1] == es;
  }

  lemma RunFour(c: Config, s: Stats, es: seq<Event>)
    requires |es| == 4
    ensures Run(c, s, es) == Step(c, Step(c, Step(c, Step(c, s, es[0]), es[1]), es[2]), es[3])
  {
    hide Step;
    assert es == [] + [es[0]] + [es[1]] + [es[2]] + [es[3]];
    RunLast(c, s, [], es[0]);
    RunLast(c, s, [] + [es[0]], es[1]);
    RunLast(c, s, [] + [es[0]] + [es[1]], es[2]);
    RunLast(c, s, [] + [es[0]] + [es[1]] + [es[2]], es[3]);
  }

  lemma BurstOpens()
    ensures Run(ENGINE_CONFIG, Fresh(0.0), BURST) == Stats(Open, 0.0, 4, 0, 4, 1, 4, 0, [0.0, 0.0, 0.0, 0.0])
  {
    hide After, Run;
    KeepAll([0.0]);
    KeepAll([0.0, 0.0]);
    KeepAll([0.0, 0.0, 0.0]);
    KeepAll([0.0, 0.0, 0.0, 0.0]);
    assert [] + [0.0] == [0.0] && [0.0] + [0.0] == [0.0, 0.0];
    assert [0.0, 0.0] + [0.0] == [0.0, 0.0, 0.0] && [0.0, 0.0, 0.0] + [0.0] == [0.0, 0.0, 0.0, 0.0];
    RunFour(ENGINE_CONFIG, Fresh(0.0), BURST);
  }

  lemma {:induction false} KeepAll(times: seq<real>)
    requires forall i :: 0 <= i < |times| ==> times[i] == 0.0
    ensures After(times, 0.0 - 300.0) == times
  {
    if times != [] { KeepAll(times[1..]); }
  }

  lemma FourInWindow(t: real)
    requires t < 300.0
    ensures |After([0.0, 0.0, 0.0, 0.0], t - 300.0)| == 4
  {
    var four := [0.0, 0.0, 0.0, 0.0];
    assert four[1..] == [0.0, 0.0, 0.0] && four[1..][1..] == [0.0, 0.0] && four[1..][1..][1..] == [0.0];
    assert After([0.0], t - 300.0) == [0.0];
    assert After([0.0, 0.0], t - 300.0) == [0.0, 0.0] by { assert [0.0, 0.0][1..] == [0.0]; }
    assert After([0.0, 0.0, 0.0], t - 300.0) == [0.0, 0.0, 0.0] by { assert [0.0, 0.0, 0.0][1..] == [0.0, 0.0]; }
  }

  lemma {:induction false} RunAppend(c: Config, s: Stats, a: seq<Event>, b: seq<Event>)
    ensures Run(c, s, a + b) == Run(c, Run(c, s, a), b)
  {
    if b == [] {
      assert a + b == a;
    } else {
      assert (a + b)[..|a + b| - 1] == a + b[..|b| - 1];
      RunAppend(c, s, a, b[..|b| - 1]);
    }
  }
}
