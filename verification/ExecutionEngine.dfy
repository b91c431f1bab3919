/** The single-leg engine: kill switch, per-venue breaker, bounded retries under one
    client order id. Gateways are nondeterministic; their placements are logged. */
module ExecutionEngines {
  import opened VenueFees
  import opened Wrappers
  import opened OrderTypes
  import opened KillSwitching
  import B = CircuitBreaking
  import VenueGateway

  datatype Placement = Placement(req: Request, id: ClientId, reply: Reply)

  function FilledIn(r: Reply): real { if r.Returned? then r.outcome.filled else 0.0 }

  function TotalFilled(posts: seq<Placement>): real {
    if posts == [] then 0.0 else FilledIn(posts[0].reply) + TotalFilled(posts[1..])
  }

  // One order, retried: every placement but the last was a retryable failure.
  predicate Orderly(posts: seq<Placement>, req: Request, id: ClientId) {
    && (forall i :: 0 <= i < |posts| ==> posts[i].req == req && posts[i].id == id)
    && (forall i :: 0 <= i < |posts| - 1 ==> RetriesAfter(posts[i].reply))
  }

  // The reply is what the gateway of this venue makes of some answer, or it raised.
  ghost predicate Answered(p: Placement) {
    || p.reply.Raised?
    || (p.req.venue == Kalshi && exists armed, answer ::
          VenueGateway.FilledBy(answer) >= 0.0 && p.reply == Returned(VenueGateway.KalshiPlace(armed, p.req, answer)))
    || (p.req.venue == Polymarket && exists armed, answer, fee ::
          VenueGateway.NonNegativeReport(answer) && p.reply == VenueGateway.PmPlace(armed, p.req, answer, fee))
  }

  lemma KalshiAnswered(p: Placement, armed: bool, answer: VenueGateway.KAnswer)
    requires p.req.venue == Kalshi && VenueGateway.FilledBy(answer) >= 0.0
    requires p.reply == Returned(VenueGateway.KalshiPlace(armed, p.req, answer))
    ensures Answered(p)
  {
  }

  lemma PolymarketAnswered(p: Placement, armed: bool, answer: VenueGateway.PmAnswer, fee: VenueGateway.FeeAnswer)
    requires p.req.venue == Polymarket && VenueGateway.NonNegativeReport(answer)
    requires p.reply == VenueGateway.PmPlace(armed, p.req, answer, fee)
    ensures Answered(p)
  {
    hide VenueGateway.PmPlace;
  }

  class Clock {
    var now: real

    method Read() returns (t: real)
      modifies this
      ensures t == now >= old(now)
    {
      var passed: real := *;
      if passed > 0.0 { now := now + passed; }
      t := now;
    }
  }

  class Gateway {
    const venue: Venue
    var armed: bool
    var log: seq<Placement>

    constructor (venue: Venue)
      ensures this.venue == venue && log == []
    {
      this.venue, armed, log := venue, false, [];
    }

    // Whatever the venue answers, through that venue's outcome construction; or it raises.
    method Place(req: Request, id: ClientId) returns (r: Reply)
      requires req.venue == venue
      modifies this`log
      ensures log == old(log) + [Placement(req, id, r)] && Answered(Placement(req, id, r))
      ensures req.size > 0.0 && r.Returned? ==> WellFormed(r.outcome)
      ensures r.Returned? ==> r.outcome.status != Halted
    {
      var raises: bool := *;
      if raises {
        r := Raised;
      } else if venue == Kalshi {
        var answer: VenueGateway.KAnswer :| VenueGateway.FilledBy(answer) >= 0.0;
        VenueGateway.KalshiWellFormed(armed, req, answer);
        r := Returned(VenueGateway.KalshiPlace(armed, req, answer));
        KalshiAnswered(Placement(req, id, r), armed, answer);
      } else {
        var fee: VenueGateway.FeeAnswer := *;
        var answer: VenueGateway.PmAnswer :| VenueGateway.NonNegativeReport(answer);
        if req.size > 0.0 { VenueGateway.PmWellFormed(armed, req, answer, fee); }
        r := VenueGateway.PolymarketPlace(armed, req, answer, fee);
        PolymarketAnswered(Placement(req, id, r), armed, answer, fee);
      }
      log := log + [Placement(req, id, r)];
    }
  }

  class ExecutionEngine {
    const maxRetries: nat
    const killSwitch: KillSwitch
    const clock: Clock
    const gateways: map<Venue, Gateway>
    const breakers: map<Venue, B.CircuitBreaker>     // created on first use in the source

    ghost predicate Valid() {
      && (forall v :: v in gateways ==> gateways[v].venue == v)
      && breakers.Keys == {Kalshi, Polymarket} && breakers[Kalshi] != breakers[Polymarket]
    }

    // What each gateway has been sent.
    ghost function Logs(): map<Venue, seq<Placement>>
      reads gateways.Values
    {
      map v | v in gateways :: gateways[v].log
    }

    constructor (maxRetries: nat, killSwitch: KillSwitch, clock: Clock, kalshi: Gateway, polymarket: Gateway,
                 kalshiBreaker: B.CircuitBreaker, polymarketBreaker: B.CircuitBreaker)
      requires kalshi.venue == Kalshi && polymarket.venue == Polymarket && kalshiBreaker != polymarketBreaker
      ensures Valid() && this.killSwitch == killSwitch && this.maxRetries == maxRetries
    {
      this.maxRetries, this.killSwitch, this.clock := maxRetries, killSwitch, clock;
      gateways := map[Kalshi := kalshi, Polymarket := polymarket];
      breakers := map[Kalshi := kalshiBreaker, Polymarket := polymarketBreaker];
    }

    method Execute(req: Request, key: string)
      returns (out: Outcome, ghost posts: seq<Placement>, ghost heard: seq<B.Event>)
      requires Valid()
      modifies killSwitch, clock, gateways.Values, breakers.Values
      // The gateway's log grew by exactly these placements, and no other gateway's did.
      ensures req.venue in gateways ==> gateways[req.venue].log == old(gateways[req.venue].log) + posts
      ensures forall v :: v in gateways && v != req.venue ==> gateways[v].log == old(gateways[v].log)
      ensures LogsGrow(old(Logs()), Logs()) && (posts == [] ==> Logs() == old(Logs()))
      // A halt stops an opening order before any placement; an absent gateway stops all.
      ensures old(Active(killSwitch.View())) && !req.riskReducing ==>
        posts == [] && out == HaltedOutcome(req.size) && killSwitch.View() == old(killSwitch.View())
      ensures req.venue !in gateways ==> posts == []
      // A risk-reducing order always reaches its gateway, whatever the halt and the breaker say.
      ensures req.riskReducing && req.venue in gateways ==> posts != [] && out.status != Halted
      // Retries: bounded, one id, each after a retryable failure; nothing filled is lost.
      ensures |posts| <= maxRetries + 1 && Orderly(posts, req, ClientIdOf(req, key))
      ensures EndsWith(posts, out, req, maxRetries)
      ensures req.size > 0.0 ==> out.filled == TotalFilled(posts) >= 0.0
      ensures req.size > 0.0 ==> forall p :: p in posts && p.reply.Returned? ==> WellFormed(p.reply.outcome)
      ensures forall p :: p in posts ==> Answered(p)
      ensures HaltKept(old(killSwitch.View()), killSwitch.View(), req, out)
      // What the venue's breaker went through: its gate and each reply, on an advancing clock.
      ensures req.venue in breakers ==>
        && breakers[req.venue].View() == B.Run(breakers[req.venue].config, old(breakers[req.venue].View()), heard)
        && Heeds(breakers[req.venue].config, old(breakers[req.venue].View()), heard, posts, req, out)
      ensures B.NonDecreasing(old(clock.now), heard) && B.Clock(old(clock.now), heard) <= clock.now
      ensures forall v :: v in breakers && v != req.venue ==> breakers[v].View() == old(breakers[v].View())
    {
      var active, why := killSwitch.IsActive();
      out, posts, heard := Proceed(active, req, key);
    }

    // The rest of a call whose one reading of the halt was `halted`, perhaps some time ago.
    method Proceed(halted: bool, req: Request, key: string)
      returns (out: Outcome, ghost posts: seq<Placement>, ghost heard: seq<B.Event>)
      requires Valid() && (halted ==> Active(killSwitch.View()))
      modifies killSwitch, clock, gateways.Values, breakers.Values
      ensures req.venue in gateways ==> gateways[req.venue].log == old(gateways[req.venue].log) + posts
      ensures forall v :: v in gateways && v != req.venue ==> gateways[v].log == old(gateways[v].log)
      ensures LogsGrow(old(Logs()), Logs()) && (posts == [] ==> Logs() == old(Logs()))
      ensures halted && !req.riskReducing ==>
        posts == [] && out == HaltedOutcome(req.size) && killSwitch.View() == old(killSwitch.View())
      ensures req.venue !in gateways ==> posts == []
      ensures req.riskReducing && req.venue in gateways ==> posts != [] && out.status != Halted
      ensures !halted && req.venue in gateways ==> posts != [] || killSwitch.tripped
      ensures |posts| <= maxRetries + 1 && Orderly(posts, req, ClientIdOf(req, key))
      ensures EndsWith(posts, out, req, maxRetries)
      ensures req.size > 0.0 ==> out.filled == TotalFilled(posts) >= 0.0
      ensures req.size > 0.0 ==> forall p :: p in posts && p.reply.Returned? ==> WellFormed(p.reply.outcome)
      ensures forall p :: p in posts ==> Answered(p)
      ensures HaltKept(old(killSwitch.View()), killSwitch.View(), req, out)
      ensures req.venue in breakers ==>
        && breakers[req.venue].View() == B.Run(breakers[req.venue].config, old(breakers[req.venue].View()), heard)
        && Heeds(breakers[req.venue].config, old(breakers[req.venue].View()), heard, posts, req, out)
      ensures B.NonDecreasing(old(clock.now), heard) && B.Clock(old(clock.now), heard) <= clock.now
      ensures forall v :: v in breakers && v != req.venue ==> breakers[v].View() == old(breakers[v].View())
    {
      hide Heeds, EndsWith, HaltKept, Orderly, LogsGrow, WellFormed, Answered;
      if req.venue in breakers { NothingHeard(breakers[req.venue].config, breakers[req.venue].View(), req); }
      NothingDone(req, ClientIdOf(req, key), maxRetries, killSwitch.View(), Logs());
      if halted && !req.riskReducing { return HaltedOutcome(req.size), [], []; }
      if req.venue !in gateways { return FailedOutcome(req.size), [], []; }
      out, posts, heard := Attempts(gateways[req.venue], breakers[req.venue], req, ClientIdOf(req, key));
      LogsGrew(old(Logs()), Logs(), req.venue, posts);
    }

    method Attempts(gateway: Gateway, breaker: B.CircuitBreaker, req: Request, id: ClientId)
      returns (out: Outcome, ghost posts: seq<Placement>, ghost heard: seq<B.Event>)
      requires gateway.venue == req.venue
      modifies killSwitch, clock, gateway`log, breaker
      ensures gateway.log == old(gateway.log) + posts
      ensures req.riskReducing ==> posts != [] && out.status != Halted
      ensures posts != [] || killSwitch.tripped
      ensures |posts| <= maxRetries + 1 && Orderly(posts, req, id)
      ensures EndsWith(posts, out, req, maxRetries)
      ensures req.size > 0.0 ==> out.filled == TotalFilled(posts) >= 0.0
      ensures req.size > 0.0 ==> forall p :: p in posts && p.reply.Returned? ==> WellFormed(p.reply.outcome)
      ensures forall p :: p in posts ==> Answered(p)
      ensures HaltKept(old(killSwitch.View()), killSwitch.View(), req, out)
      ensures breaker.View() == B.Run(breaker.config, old(breaker.View()), heard)
      ensures Heeds(breaker.config, old(breaker.View()), heard, posts, req, out)
      ensures B.NonDecreasing(old(clock.now), heard) && B.Clock(old(clock.now), heard) <= clock.now
    {
      hide WellFormed, RetriesAfter, Orderly, TotalFilled, Follows, Heeds, Answered, B.Run, B.NonDecreasing, B.Clock;
      NothingPosted(req, id);
      NothingHeard(breaker.config, breaker.View(), req);
      posts, heard := [], [];
      out := FailedOutcome(req.size);
      for attempt := 0 to maxRetries + 1
        invariant gateway.log == old(gateway.log) + posts && |posts| == attempt
        invariant Retrying(posts, req, id)
        invariant req.size > 0.0 ==> forall p :: p in posts && p.reply.Returned? ==> WellFormed(p.reply.outcome)
        invariant forall p :: p in posts ==> Answered(p)
        invariant out.status != Halted && (req.size > 0.0 ==> out.filled == 0.0)
        invariant killSwitch.View() == old(killSwitch.View())
        invariant posts != [] ==> out == OutcomeOf(posts[|posts| - 1].reply, req)
        invariant Follows(breaker.config, old(breaker.View()), heard, posts, req)
        invariant breaker.View() == B.Run(breaker.config, old(breaker.View()), heard)
        invariant B.NonDecreasing(old(clock.now), heard) && B.Clock(old(clock.now), heard) <= clock.now
      {
        ghost var started := clock.now;
        var reply; ghost var more;
        reply, more := TryOnce(gateway, breaker, req, id);
        B.ClockJoins(old(clock.now), heard, started, more);
        B.RunAppend(breaker.config, old(breaker.View()), heard, more);
        if reply.None? {
          RefusalHeeded(breaker.config, old(breaker.View()), heard, more, posts, req);
          heard := heard + more;
          return HaltedOutcome(req.size), posts, heard;
        }
        PostRecorded(posts, reply.value, req, id);
        ReplyHeard(breaker.config, old(breaker.View()), heard, more, posts, Placement(req, id, reply.value), req);
        posts, heard := posts + [Placement(req, id, reply.value)], heard + more;
        out := OutcomeOf(reply.value, req);
        NoRetry(reply.value, req);
        if out.Done() { return; }
        if !out.retryable { return; }
      }
      FollowedIsHeeded(breaker.config, old(breaker.View()), heard, posts, req, out);
    }

    // One pass of the retry loop; None when the breaker refused and the halt was tripped.
    method TryOnce(gateway: Gateway, breaker: B.CircuitBreaker, req: Request, id: ClientId)
      returns (reply: Option<Reply>, ghost heard: seq<B.Event>)
      requires gateway.venue == req.venue
      modifies killSwitch, clock, gateway`log, breaker
      ensures reply.None? ==> !req.riskReducing && gateway.log == old(gateway.log) && killSwitch.tripped
                              && killSwitch.reason == Some(CircuitOpen(req.venue))
                              && HaltGrows(old(killSwitch.View()), killSwitch.View())
      ensures reply.Some? ==> gateway.log == old(gateway.log) + [Placement(req, id, reply.value)]
                              && killSwitch.View() == old(killSwitch.View())
      ensures reply.Some? ==> Answered(Placement(req, id, reply.value))
      ensures reply.Some? && reply.value.Returned? ==>
        reply.value.outcome.status != Halted && (req.size > 0.0 ==> WellFormed(reply.value.outcome))
      ensures breaker.View() == B.Run(breaker.config, old(breaker.View()), heard)
      ensures HeardOnce(breaker.config, old(breaker.View()), heard, reply, req)
      ensures B.NonDecreasing(old(clock.now), heard) && B.Clock(old(clock.now), heard) <= clock.now
    {
      hide B.Admit, B.OnSuccess, B.OnFailure, Answered;
      heard := [];
      if !req.riskReducing {
        var t1 := clock.Read();
        var t2 := clock.Read();
        var t3 := clock.Read();
        var t4 := clock.Read();
        var admitted := breaker.BeforeCall(t1, t2, t3, t4);
        heard := [B.Start(t1, t2, t3, t4)];
        RunOne(breaker.config, old(breaker.View()), heard[0]);
        OneAfter(old(clock.now), heard[0], heard[0]);
        B.RefusedIff(breaker.config, old(breaker.View()), t1, t2, t3, t4);
        if !admitted {
          killSwitch.TripNow(CircuitOpen(req.venue));
          return None, heard;
        }
      }
      var r := gateway.Place(req, id);
      if !req.riskReducing {
        ghost var gated := heard[0];
        ghost var placed := clock.now;
        ghost var e := Count(breaker, r);
        heard := [gated, e];
        RunTwo(breaker.config, old(breaker.View()), gated, e);
        OrderedLater(e, B.EndOf(gated), placed);
        OneAfter(old(clock.now), gated, e);
      }
      reply := Some(r);
    }

    // A returned failure counts against the breaker just as a raised one does.
    method Count(breaker: B.CircuitBreaker, reply: Reply) returns (ghost heard: B.Event)
      modifies clock, breaker
      ensures breaker.View() == B.Step(breaker.config, old(breaker.View()), heard)
      ensures if reply.Returned? && reply.outcome.status != Failed then heard.Success? else heard.Failure?
      ensures B.Ordered(heard, old(clock.now)) && B.EndOf(heard) <= clock.now
    {
      var t1 := clock.Read();
      var t2 := clock.Read();
      if reply.Returned? && reply.outcome.status != Failed {
        breaker.CallSucceeded(t1);
        heard := B.Success(t1);
      } else {
        breaker.CallFailed(t1, t2);
        heard := B.Failure(t1, t2);
      }
    }
  }

  // ------------------------------------------------------- what a breaker goes through

  function CircuitOpen(v: Venue): string {
    "circuit_open:" + if v == Kalshi then "kalshi" else "polymarket"
  }

  lemma RunOne(c: B.Config, s: B.Stats, e: B.Event)
    ensures B.Run(c, s, [e]) == B.Step(c, s, e)
  {
    hide B.Step;
    assert [e][..0] == [];
    assert B.Run(c, s, []) == s;
  }

  lemma RunTwo(c: B.Config, s: B.Stats, a: B.Event, e: B.Event)
    ensures B.Run(c, s, [a, e]) == B.Step(c, B.Step(c, s, a), e)
  {
    hide B.Step;
    RunOne(c, s, a);
    assert [a, e][..1] == [a];
  }

  // A pass of the loop is heard as its gate and its reply, or as the gate refusing; a
  // risk-reducing order is not heard at all.
  ghost predicate HeardOnce(c: B.Config, s: B.Stats, es: seq<B.Event>, reply: Option<Reply>, req: Request) {
    if req.riskReducing then es == [] && reply.Some?
    else if reply.None? then |es| == 1 && es[0].Start? && B.Run(c, s, es).state == B.Open
    else |es| == 2 && es[0].Start? && B.Step(c, s, es[0]).state != B.Open && CountedAs(es[1], reply.value)
  }

  predicate CountedAs(e: B.Event, reply: Reply) {
    if reply.Returned? && reply.outcome.status != Failed then e.Success? else e.Failure?
  }

  // Every placement of an opening order came after a gate that left the circuit not open,
  // and was counted by its reply.
  ghost predicate Follows(c: B.Config, s: B.Stats, es: seq<B.Event>, posts: seq<Placement>, req: Request) {
    if req.riskReducing || posts == [] then es == []
    else
      var n := |es| - 2;
      && n >= 0 && es[n].Start? && B.Run(c, s, es[..n + 1]).state != B.Open
      && CountedAs(es[n + 1], posts[|posts| - 1].reply)
      && Follows(c, s, es[..n], posts[..|posts| - 1], req)
  }

  // And a call that the breaker halted ended at a gate that left it open.
  ghost predicate Heeds(c: B.Config, s: B.Stats, es: seq<B.Event>, posts: seq<Placement>, req: Request,
                        out: Outcome) {
    || Follows(c, s, es, posts, req)
    || (&& out.status == Halted && !req.riskReducing && es != [] && es[|es| - 1].Start?
        && B.Run(c, s, es).state == B.Open && Follows(c, s, es[..|es| - 1], posts, req))
  }

  lemma NothingHeard(c: B.Config, s: B.Stats, req: Request)
    ensures Follows(c, s, [], [], req) && B.Run(c, s, []) == s
    ensures forall out :: Heeds(c, s, [], [], req, out)
    ensures forall now :: B.NonDecreasing(now, []) && B.Clock(now, []) == now
  {
  }

  lemma FollowedIsHeeded(c: B.Config, s: B.Stats, es: seq<B.Event>, posts: seq<Placement>, req: Request, out: Outcome)
    requires Follows(c, s, es, posts, req)
    ensures Heeds(c, s, es, posts, req, out)
  {
    hide Follows;
  }

  lemma OneAfter(now: real, a: B.Event, e: B.Event)
    requires B.Ordered(a, now)
    ensures B.NonDecreasing(now, [a]) && B.Clock(now, [a]) == B.EndOf(a)
    ensures B.Ordered(e, B.EndOf(a)) ==> B.NonDecreasing(now, [a, e]) && B.Clock(now, [a, e]) == B.EndOf(e)
  {
    assert [a][..0] == [] && [a, e][..1] == [a];
    assert B.NonDecreasing(now, []);
  }

  lemma OrderedLater(e: B.Event, from: real, later: real)
    requires B.Ordered(e, later) && from <= later
    ensures B.Ordered(e, from)
  {
  }

  lemma NoRetry(reply: Reply, req: Request)
    ensures RetriesAfter(reply) <==> !OutcomeOf(reply, req).Done() && OutcomeOf(reply, req).retryable
  {
  }

  lemma RefusalHeeded(c: B.Config, s: B.Stats, es: seq<B.Event>, more: seq<B.Event>, posts: seq<Placement>,
                      req: Request)
    requires Follows(c, s, es, posts, req) && !req.riskReducing
    requires HeardOnce(c, B.Run(c, s, es), more, None, req)
    ensures Heeds(c, s, es + more, posts, req, HaltedOutcome(req.size))
  {
    hide B.Run, Follows;
    B.RunAppend(c, s, es, more);
    assert (es + more)[..|es + more| - 1] == es;
  }

  lemma ReplyHeard(c: B.Config, s: B.Stats, es: seq<B.Event>, more: seq<B.Event>, posts: seq<Placement>,
                   p: Placement, req: Request)
    requires Follows(c, s, es, posts, req) && HeardOnce(c, B.Run(c, s, es), more, Some(p.reply), req)
    ensures Follows(c, s, es + more, posts + [p], req)
    ensures forall out :: Heeds(c, s, es + more, posts + [p], req, out)
  {
    hide B.Run, B.Step;
    if !req.riskReducing {
      var all, n := es + more, |es|;
      B.RunLast(c, s, es, more[0]);
      assert all[..n + 1] == es + [more[0]] && all[..n] == es;
      assert (posts + [p])[..|posts + [p]| - 1] == posts;
    }
  }

  // The placements that count as successes, and the failures in a row they end with.
  function Succeeded(posts: seq<Placement>): nat {
    if posts == [] then 0
    else
      var r := posts[|posts| - 1].reply;
      Succeeded(posts[..|posts| - 1]) + if r.Returned? && r.outcome.status != Failed then 1 else 0
  }

  function FailedInARow(posts: seq<Placement>, before: int): int {
    if posts == [] then before
    else
      var r := posts[|posts| - 1].reply;
      if r.Returned? && r.outcome.status != Failed then 0 else FailedInARow(posts[..|posts| - 1], before) + 1
  }

  lemma {:induction false} FollowedCounts(c: B.Config, s: B.Stats, es: seq<B.Event>, posts: seq<Placement>,
                                          req: Request, before: int)
    requires Follows(c, s, es, posts, req) && !req.riskReducing
    ensures B.Successes(es) == Succeeded(posts) && B.Failures(es) == |posts| - Succeeded(posts)
    ensures B.FailuresInARow(es, before) == FailedInARow(posts, before)
  {
    hide B.Run;
    if posts != [] {
      var n := |es| - 2;
      FollowedCounts(c, s, es[..n], posts[..|posts| - 1], req, before);
      assert es[..n + 1][..n] == es[..n] && es[..|es| - 1] == es[..n + 1];
      GateCountsNothing(es[..n + 1], before);
    }
  }

  lemma GateCountsNothing(es: seq<B.Event>, before: int)
    requires es != [] && es[|es| - 1].Start?
    ensures var init := es[..|es| - 1];
            && B.Successes(es) == B.Successes(init) && B.Failures(es) == B.Failures(init)
            && B.FailuresInARow(es, before) == B.FailuresInARow(init, before)
  {
  }

  // The breaker of an opening order gains one success for every placement that came back
  // not failed, and one failure for every one that failed or raised; its failures in a row
  // are those of the replies.
  lemma BreakerCountsReplies(c: B.Config, s: B.Stats, es: seq<B.Event>, posts: seq<Placement>, req: Request,
                             out: Outcome)
    requires Heeds(c, s, es, posts, req, out) && !req.riskReducing
    ensures var s' := B.Run(c, s, es);
            && s'.successes == s.successes + Succeeded(posts)
            && s'.failures == s.failures + |posts| - Succeeded(posts)
            && s'.consecutiveFailures == FailedInARow(posts, s.consecutiveFailures)
  {
    hide Follows, Succeeded, FailedInARow, B.Run;
    B.CountersCount(c, s, es);
    if Follows(c, s, es, posts, req) {
      FollowedCounts(c, s, es, posts, req, s.consecutiveFailures);
    } else {
      FollowedCounts(c, s, es[..|es| - 1], posts, req, s.consecutiveFailures);
      GateCountsNothing(es, s.consecutiveFailures);
    }
  }

  // How a call ends: with its last reply, after which it may still retry only when the
  // attempts are used up; or halted, with attempts left.
  predicate EndsWith(posts: seq<Placement>, out: Outcome, req: Request, maxRetries: nat) {
    if out.status == Halted then out == HaltedOutcome(req.size) && |posts| <= maxRetries
    else if posts == [] then out == FailedOutcome(req.size)
    else
      var last := posts[|posts| - 1].reply;
      out == OutcomeOf(last, req) && (RetriesAfter(last) ==> |posts| == maxRetries + 1)
  }

  lemma NothingDone(req: Request, id: ClientId, maxRetries: nat, kill: Kill, logs: map<Venue, seq<Placement>>)
    ensures Orderly([], req, id) && TotalFilled([]) == 0.0 && LogsGrow(logs, logs)
    ensures EndsWith([], HaltedOutcome(req.size), req, maxRetries)
    ensures EndsWith([], FailedOutcome(req.size), req, maxRetries)
    ensures Active(kill) ==> HaltKept(kill, kill, req, HaltedOutcome(req.size))
    ensures HaltKept(kill, kill, req, FailedOutcome(req.size))
  {
  }

  lemma LogsGrew(before: map<Venue, seq<Placement>>, after: map<Venue, seq<Placement>>, v: Venue,
                 posts: seq<Placement>)
    requires before.Keys == after.Keys && v in before && after[v] == before[v] + posts
    requires forall u :: u in before && u != v ==> after[u] == before[u]
    ensures LogsGrow(before, after) && (posts == [] ==> after == before)
  {
    if posts == [] {
      forall u | u in before ensures after[u] == before[u] { assert before[v] + posts == before[v]; }
    }
  }

  // The halt is only ever tripped, never lifted, and only by an open breaker refusing an
  // opening order; a halted outcome leaves it active.
  ghost predicate HaltKept(before: Kill, after: Kill, req: Request, out: Outcome) {
    && (after == before || (after.tripped && after.reason == Some(CircuitOpen(req.venue)) && HaltGrows(before, after)
                         && out.status == Halted && !req.riskReducing))
    && (out.status == Halted ==> Active(after))
  }

  ghost predicate LogsGrow(before: map<Venue, seq<Placement>>, after: map<Venue, seq<Placement>>) {
    before.Keys == after.Keys && forall v :: v in before ==> before[v] <= after[v]
  }

  // What one finished call filled is what its last placement filled.
  lemma {:induction false} OnlyLastFills(posts: seq<Placement>, req: Request, id: ClientId)
    requires Orderly(posts, req, id)
    requires forall p :: p in posts && p.reply.Returned? ==> WellFormed(p.reply.outcome)
    ensures TotalFilled(posts) == if posts == [] then 0.0 else FilledIn(posts[|posts| - 1].reply)
  {
    if |posts| > 1 {
      assert posts[0] in posts && posts[0].req == req;
      OnlyLastFills(posts[1..], req, id);
    }
  }

  function OutcomeOf(reply: Reply, req: Request): Outcome {
    if reply.Returned? then reply.outcome else FailedOutcome(req.size)
  }

  // The loop's state: orderly so far, and everything posted was a retryable failure.
  ghost predicate Retrying(posts: seq<Placement>, req: Request, id: ClientId) {
    && Orderly(posts, req, id)
    && (posts != [] ==> RetriesAfter(posts[|posts| - 1].reply))
    && (req.size > 0.0 ==> TotalFilled(posts) == 0.0)
  }

  lemma NothingPosted(req: Request, id: ClientId)
    ensures Retrying([], req, id) && TotalFilled([]) == 0.0
  {
  }

  // What one more reply adds; the loop goes on only past a retryable failure.
  lemma PostRecorded(posts: seq<Placement>, reply: Reply, req: Request, id: ClientId)
    requires Retrying(posts, req, id)
    requires reply.Returned? && req.size > 0.0 ==> WellFormed(reply.outcome)
    ensures var more, out := posts + [Placement(req, id, reply)], OutcomeOf(reply, req);
            && Orderly(more, req, id)
            && (req.size > 0.0 ==> out.filled == TotalFilled(more) >= 0.0)
            && (!out.Done() && out.retryable ==> Retrying(more, req, id) && (req.size > 0.0 ==> out.filled == 0.0))
  {
    TotalAppend(posts, Placement(req, id, reply));
  }

  lemma {:induction false} TotalAppend(posts: seq<Placement>, p: Placement)
    ensures TotalFilled(posts + [p]) == TotalFilled(posts) + FilledIn(p.reply)
  {
    if posts != [] {
      assert (posts + [p])[1..] == posts[1..] + [p];
      TotalAppend(posts[1..], p);
    }
  }

  // ------------------------------------------------------------- orders posted twice

  // After an answer that leaves a Polymarket order's fate unknown nothing more is posted,
  // unless its fill was found and the fee lookup raised.
  lemma AmbiguousIsLast(posts: seq<Placement>, req: Request, id: ClientId, i: nat, armed: bool,
                        recent: seq<VenueGateway.VenueTrade>, now: real, fee: VenueGateway.FeeAnswer)
    requires Orderly(posts, req, id) && i < |posts| && VenueGateway.Posted(armed, req)
    requires posts[i].reply == VenueGateway.PmPlace(armed, req, VenueGateway.PmUnknown(recent, now), fee)
    ensures i == |posts| - 1 || (VenueGateway.Found(recent, req, now) && fee.LookupRaises?)
  {
    VenueGateway.AmbiguousRetriedIff(req, recent, now, fee, armed);
  }

  // Then the order that landed and was found is posted again, and the call reports the
  // second fill alone.
  lemma AmbiguousDoublesOrder(req: Request, id: ClientId, now: real, bps: int)
    requires VenueGateway.Posted(true, req) && req.size > 0.0
    ensures var landed := VenueGateway.OwnTrade(req, now);
            var first := VenueGateway.PmPlace(true, req, VenueGateway.PmUnknown([landed], now),
                                              VenueGateway.LookupRaises);
            var second := VenueGateway.PmPlace(true, req, FilledAnswer(req), VenueGateway.Rate(bps));
            var posts := [Placement(req, id, first), Placement(req, id, second)];
            && VenueGateway.OwnSize([landed], [true], req, now - VenueGateway.RECENT_WINDOW) == req.size
            && Orderly(posts, req, id) && TotalFilled(posts) == req.size
  {
    hide VenueGateway.PmPlace;
    var landed := VenueGateway.OwnTrade(req, now);
    VenueGateway.OwnTradeFound(req, now);
    VenueGateway.AmbiguousRetriedIff(req, [landed], now, VenueGateway.LookupRaises, true);
    FilledAnswerFills(req, bps);
    DoublePost(req, id, VenueGateway.PmPlace(true, req, VenueGateway.PmUnknown([landed], now),
                                             VenueGateway.LookupRaises),
               VenueGateway.PmPlace(true, req, FilledAnswer(req), VenueGateway.Rate(bps)));
  }

  // A Polymarket order the venue accepted and matched is offered for another post exactly
  // when the price beside its matched size cannot be read or the fee lookup raises.
  lemma MatchedIsRetriedIff(req: Request, armed: bool, orderId: string, body: VenueGateway.FillBody,
                            fee: VenueGateway.FeeAnswer)
    requires VenueGateway.Posted(armed, req) && req.size > 0.0 && body.matched.Some? && body.matched.value > 0.0
    ensures RetriesAfter(VenueGateway.PmPlace(armed, req, VenueGateway.PmAccepted(orderId, body), fee))
       <==> body.price == VenueGateway.Unreadable || fee.LookupRaises?
  {
    hide VenueGateway.PmFees;
  }

  // However the fill of an accepted order is read, a positive one is posted again exactly
  // when the fee lookup raises.
  lemma FilledIsRetriedIff(req: Request, armed: bool, orderId: string, body: VenueGateway.FillBody,
                           fee: VenueGateway.FeeAnswer)
    requires VenueGateway.Posted(armed, req) && req.size > 0.0
    ensures var sent := if VenueGateway.Marketable(req) then Some(VenueGateway.DollarsSent(req)) else None;
            var fill := VenueGateway.ParseFill(body, req, sent);
            fill.Some? && fill.value.0 > 0.0 ==>
              (RetriesAfter(VenueGateway.PmPlace(armed, req, VenueGateway.PmAccepted(orderId, body), fee))
               <==> fee.LookupRaises?)
  {
    hide VenueGateway.PmFees, VenueGateway.DollarsSent, VenueGateway.ParseFill;
  }

  // So one call can post a matched order twice, the first of them filled and unreported.
  lemma MatchedDoublesOrder(req: Request, id: ClientId, price: VenueGateway.PriceField, fee: VenueGateway.FeeAnswer,
                            bps: int)
    requires VenueGateway.Posted(true, req) && req.size > 0.0
    requires price == VenueGateway.Unreadable || fee.LookupRaises?
    ensures var matched := VenueGateway.FillBody(Some(req.size), price, None, None, true);
            var first := VenueGateway.PmPlace(true, req, VenueGateway.PmAccepted("a", matched), fee);
            var second := VenueGateway.PmPlace(true, req, FilledAnswer(req), VenueGateway.Rate(bps));
            var posts := [Placement(req, id, first), Placement(req, id, second)];
            Orderly(posts, req, id) && TotalFilled(posts) == req.size
  {
    hide VenueGateway.PmFees;
    var matched := VenueGateway.FillBody(Some(req.size), price, None, None, true);
    FilledAnswerFills(req, bps);
    DoublePost(req, id, VenueGateway.PmPlace(true, req, VenueGateway.PmAccepted("a", matched), fee),
               VenueGateway.PmPlace(true, req, FilledAnswer(req), VenueGateway.Rate(bps)));
  }

  // The venue's plain report of a full fill.
  function FilledAnswer(req: Request): VenueGateway.PmAnswer {
    VenueGateway.PmAccepted("b",
        VenueGateway.FillBody(Some(req.size), VenueGateway.Number(req.limitPrice), None, None, true))
  }

  lemma FilledAnswerFills(req: Request, bps: int)
    requires VenueGateway.Posted(true, req) && req.size > 0.0
    ensures var r := VenueGateway.PmPlace(true, req, FilledAnswer(req), VenueGateway.Rate(bps));
            r.Returned? && r.outcome.filled == req.size
  {
    hide VenueGateway.PmFees;
  }

  lemma DoublePost(req: Request, id: ClientId, first: Reply, second: Reply)
    requires first.Raised?
    ensures var posts := [Placement(req, id, first), Placement(req, id, second)];
            Orderly(posts, req, id) && TotalFilled(posts) == FilledIn(second)
  {
    var last := [Placement(req, id, second)];
    assert [Placement(req, id, first), Placement(req, id, second)][1..] == last && last[1..] == [];
    assert TotalFilled(last) == FilledIn(second);
  }
}
