/** Many engine calls at once. Every await of a call is a point where another call, an
    operator or the file system may act, so a run is any sequence of the events below.

    Breakers, the halt and the retry decision are the functions of their own modules. */
module EngineProtocol {
  import opened VenueFees
  import opened OrderTypes
  import opened Wrappers
  import opened ExecutionEngines
  import K = KillSwitching

  datatype Phase = Ready | Posting | Finished(outcome: Outcome)

  // One engine call: its replies so far, and whether the halt was up when it started.
  datatype Call = Call(req: Request, id: ClientId, phase: Phase, replies: seq<Reply>, metHalt: bool)

  datatype World = World(kill: K.Kill, breakers: map<Venue, B.Stats>, calls: seq<Call>)

  datatype Setup = Setup(maxRetries: nat, gateways: set<Venue>, config: B.Config)

  datatype Event =
    | Start(req: Request, key: string)
    | Attempt(i: nat, t1: real, t2: real, t3: real, t4: real, written: bool)
    | Answer(i: nat, reply: Reply, t1: real, t2: real)
    | Cancel(i: nat)
    | Halting(e: K.Event)
    | BreakerReset(venue: Venue, now: real)

  function StartPhase(s: Setup, kill: K.Kill, req: Request): Phase {
    if K.Active(kill) && !req.riskReducing then Finished(HaltedOutcome(req.size))
    else if req.venue !in s.gateways then Finished(FailedOutcome(req.size))
    else Ready
  }

  function WithCall(w: World, i: nat, c: Call): World
    requires i < |w.calls|
  {
    w.(calls := w.calls[i := c])
  }

  // A ready call asks its breaker, unless it reduces risk, and posts or halts everything.
  function DoAttempt(s: Setup, w: World, e: Event): World
    requires e.Attempt? && e.i < |w.calls| && w.calls[e.i].phase.Ready?
  {
    var c := w.calls[e.i];
    if c.req.riskReducing || c.req.venue !in w.breakers then WithCall(w, e.i, c.(phase := Posting))
    else
      var (stats, admitted) := B.Admit(s.config, w.breakers[c.req.venue], e.t1, e.t2, e.t3, e.t4);
      var w' := w.(breakers := w.breakers[c.req.venue := stats]);
      if admitted then WithCall(w', e.i, c.(phase := Posting))
      else WithCall(w'.(kill := K.Trip(w.kill, CircuitOpen(c.req.venue), e.written)), e.i,
                    c.(phase := Finished(HaltedOutcome(c.req.size))))
  }

  function NextPhase(s: Setup, c: Call, reply: Reply): Phase {
    if RetriesAfter(reply) && |c.replies| + 1 <= s.maxRetries then Ready
    else Finished(OutcomeOf(reply, c.req))
  }

  function Counted(s: Setup, w: World, c: Call, e: Event): map<Venue, B.Stats>
    requires e.Answer?
  {
    if c.req.riskReducing || c.req.venue !in w.breakers then w.breakers
    else
      var stats := w.breakers[c.req.venue];
      w.breakers[c.req.venue :=
        if e.reply.Returned? && e.reply.outcome.status != Failed then B.OnSuccess(s.config, stats, e.t1)
        else B.OnFailure(s.config, stats, e.t1, e.t2)]
  }

  function DoAnswer(s: Setup, w: World, e: Event): World
    requires e.Answer? && e.i < |w.calls| && w.calls[e.i].phase.Posting?
  {
    var c := w.calls[e.i];
    WithCall(w.(breakers := Counted(s, w, c, e)), e.i,
             c.(phase := NextPhase(s, c, e.reply), replies := c.replies + [e.reply]))
  }

  // Events that are not enabled change nothing.
  function Step(s: Setup, w: World, e: Event): World {
    match e
    case Start(req, key) =>
      w.(calls := w.calls + [Call(req, ClientIdOf(req, key), StartPhase(s, w.kill, req), [],
                                  K.Active(w.kill) && !req.riskReducing)])
    case Attempt(i, _, _, _, _, _) => if i < |w.calls| && w.calls[i].phase.Ready? then DoAttempt(s, w, e) else w
    case Answer(i, reply, _, _) =>
      if i < |w.calls| && w.calls[i].phase.Posting? && Possible(w.calls[i].req, reply) then DoAnswer(s, w, e) else w
    case Cancel(i) =>
      if i < |w.calls| && !w.calls[i].phase.Finished?
      then WithCall(w, i, w.calls[i].(phase := Finished(FailedOutcome(w.calls[i].req.size)))) else w
    case Halting(k) => w.(kill := K.Step(w.kill, k))
    case BreakerReset(v, now) =>
      if v in w.breakers then w.(breakers := w.breakers[v := B.Reset(w.breakers[v], now)]) else w
  }

  // What the gateways' constructors allow as an answer.
  predicate Possible(req: Request, reply: Reply) {
    reply.Returned? ==> reply.outcome.status != Halted && (req.size > 0.0 ==> WellFormed(reply.outcome))
  }

  // No answer a gateway can give is ruled out.
  lemma GatewayAnswersArePossible(p: Placement)
    requires Answered(p)
    ensures Possible(p.req, p.reply)
  {
    hide VenueGateway.KalshiPlace, VenueGateway.PmPlace;
    if p.reply.Returned? && p.req.venue == Kalshi {
      var armed, answer :|
        VenueGateway.FilledBy(answer) >= 0.0 && p.reply == Returned(VenueGateway.KalshiPlace(armed, p.req, answer));
      KalshiNotHalted(armed, p.req, answer);
      VenueGateway.KalshiWellFormed(armed, p.req, answer);
    } else if p.reply.Returned? {
      var armed, answer, fee :|
        VenueGateway.NonNegativeReport(answer) && p.reply == VenueGateway.PmPlace(armed, p.req, answer, fee);
      PolymarketNotHalted(armed, p.req, answer, fee);
      if p.req.size > 0.0 { VenueGateway.PmWellFormed(armed, p.req, answer, fee); }
    }
  }

  lemma KalshiNotHalted(armed: bool, req: Request, answer: VenueGateway.KAnswer)
    ensures VenueGateway.KalshiPlace(armed, req, answer).status != Halted
  {
  }

  lemma PolymarketNotHalted(armed: bool, req: Request, answer: VenueGateway.PmAnswer, fee: VenueGateway.FeeAnswer)
    ensures var r := VenueGateway.PmPlace(armed, req, answer, fee); r.Returned? ==> r.outcome.status != Halted
  {
    hide VenueGateway.ParseFill, VenueGateway.PmFees, VenueGateway.RecentNotional;
  }

  function Run(s: Setup, w: World, es: seq<Event>): World
    decreases |es|
  {
    if es == [] then w else Run(s, Step(s, w, es[0]), es[1..])
  }

  function Initial(kill: K.Kill, now: real): World {
    World(kill, map[Kalshi := B.Fresh(now), Polymarket := B.Fresh(now)], [])
  }

  // ------------------------------------------------------- what every state keeps

  function Reported(replies: seq<Reply>): real {
    if replies == [] then 0.0 else Reported(replies[..|replies| - 1]) + FilledIn(replies[|replies| - 1])
  }

  // How many times a call reached its gateway.
  function Posts(c: Call): nat { |c.replies| + if c.phase.Posting? then 1 else 0 }

  ghost predicate CallSound(s: Setup, c: Call) {
    && Posts(c) <= s.maxRetries + 1
    && (forall i :: 0 <= i < |c.replies| - 1 ==> RetriesAfter(c.replies[i]))
    && (!c.phase.Finished? && c.replies != [] ==> RetriesAfter(c.replies[|c.replies| - 1]))
    && (c.phase.Ready? ==> |c.replies| <= s.maxRetries)
    && (c.metHalt ==> c.replies == [] && c.phase == Finished(HaltedOutcome(c.req.size)))
    && (c.req.size > 0.0 && !c.phase.Finished? ==> Reported(c.replies) == 0.0)
    && (c.req.size > 0.0 && c.phase.Finished? ==> c.phase.outcome.filled == Reported(c.replies) >= 0.0)
    && (c.metHalt ==> !c.req.riskReducing)
  }

  ghost predicate WorldSound(s: Setup, w: World) {
    && (forall i :: 0 <= i < |w.calls| ==> CallSound(s, w.calls[i]))
    && w.breakers.Keys == {Kalshi, Polymarket}
    && (forall v :: v in w.breakers ==> B.Sound(s.config, w.breakers[v]))
  }

  ghost predicate Sensible(s: Setup) { s.config.failureThreshold >= 1 && s.config.successThreshold >= 1 }

  lemma BreakerStepSound(c: B.Config, st: B.Stats, t1: real, t2: real, t3: real, t4: real)
    requires c.failureThreshold >= 1 && c.successThreshold >= 1 && B.Sound(c, st)
    ensures B.Sound(c, B.Admit(c, st, t1, t2, t3, t4).0)
    ensures B.Sound(c, B.OnSuccess(c, st, t1)) && B.Sound(c, B.OnFailure(c, st, t1, t2))
    ensures B.Sound(c, B.Reset(st, t1))
  {
  }

  lemma ReportedSnoc(replies: seq<Reply>, r: Reply)
    ensures Reported(replies + [r]) == Reported(replies) + FilledIn(r)
  {
    assert (replies + [r])[..|replies + [r]| - 1] == replies;
  }

  lemma AnswerSound(s: Setup, c: Call, reply: Reply)
    requires CallSound(s, c) && c.phase.Posting? && Possible(c.req, reply)
    ensures CallSound(s, c.(phase := NextPhase(s, c, reply), replies := c.replies + [reply]))
  {
    ReportedSnoc(c.replies, reply);
  }

  lemma StepSound(s: Setup, w: World, e: Event)
    requires Sensible(s) && WorldSound(s, w)
    ensures WorldSound(s, Step(s, w, e))
  {
    hide CallSound, B.Sound, B.Admit, B.OnSuccess, B.OnFailure, B.Reset;
    match e
    case Start(req, key) => StartSound(s, w.kill, req, key);
    case Attempt(i, t1, t2, t3, t4, written) =>
      if i < |w.calls| && w.calls[i].phase.Ready? { AttemptSound(s, w, e); }
    case Answer(i, reply, t1, t2) =>
      if i < |w.calls| && w.calls[i].phase.Posting? && Possible(w.calls[i].req, reply) {
        BothVenues(w, w.calls[i].req.venue);
        BreakerStepSound(s.config, w.breakers[w.calls[i].req.venue], t1, t2, 0.0, 0.0);
        AnswerSound(s, w.calls[i], reply);
      }
    case Cancel(i) => if i < |w.calls| && !w.calls[i].phase.Finished? { CancelSound(s, w.calls[i]); }
    case Halting(k) =>
    case BreakerReset(v, now) =>
      BothVenues(w, v);
      BreakerStepSound(s.config, w.breakers[v], now, now, now, now);
  }

  lemma BothVenues(w: World, v: Venue)
    requires w.breakers.Keys == {Kalshi, Polymarket}
    ensures v in w.breakers
  {
    assert v in {Kalshi, Polymarket};
  }

  lemma StartSound(s: Setup, kill: K.Kill, req: Request, key: string)
    ensures var metHalt := K.Active(kill) && !req.riskReducing;
            CallSound(s, Call(req, ClientIdOf(req, key), StartPhase(s, kill, req), [], metHalt))
  {
  }

  lemma CancelSound(s: Setup, c: Call)
    requires CallSound(s, c) && !c.phase.Finished?
    ensures CallSound(s, c.(phase := Finished(FailedOutcome(c.req.size))))
  {
  }

  lemma AttemptSound(s: Setup, w: World, e: Event)
    requires Sensible(s) && WorldSound(s, w)
    requires e.Attempt? && e.i < |w.calls| && w.calls[e.i].phase.Ready?
    ensures WorldSound(s, DoAttempt(s, w, e))
  {
    hide CallSound, B.Sound, B.Admit;
    var c := w.calls[e.i];
    BothVenues(w, c.req.venue);
    BreakerStepSound(s.config, w.breakers[c.req.venue], e.t1, e.t2, e.t3, e.t4);
    ReadySound(s, c);
  }

  lemma ReadySound(s: Setup, c: Call)
    requires CallSound(s, c) && c.phase.Ready?
    ensures CallSound(s, c.(phase := Posting))
    ensures CallSound(s, c.(phase := Finished(HaltedOutcome(c.req.size))))
  {
  }

  // Every reachable state: breakers sound, calls bounded, and every finished call's
  // outcome reports exactly what its placements filled.
  lemma {:induction false} RunSound(s: Setup, w: World, es: seq<Event>)
    requires Sensible(s) && WorldSound(s, w)
    ensures WorldSound(s, Run(s, w, es))
    decreases |es|
  {
    hide WorldSound, Step;
    if es != [] {
      StepSound(s, w, es[0]);
      RunSound(s, Step(s, w, es[0]), es[1..]);
    }
  }

  lemma InitialSound(s: Setup, kill: K.Kill, now: real)
    requires Sensible(s)
    ensures WorldSound(s, Initial(kill, now))
  {
  }

  // From any start of the process, whatever calls, answers, cancellations and operators do.
  lemma EveryReachableState(s: Setup, kill: K.Kill, now: real, es: seq<Event>)
    requires Sensible(s)
    ensures WorldSound(s, Run(s, Initial(kill, now), es))
  {
    InitialSound(s, kill, now);
    RunSound(s, Initial(kill, now), es);
  }

  // ------------------------------------------------------------- the breakers

  // Replies that came back not failed.
  function Good(replies: seq<Reply>): nat {
    if replies == [] then 0
    else
      var r := replies[|replies| - 1];
      Good(replies[..|replies| - 1]) + if r.Returned? && r.outcome.status != Failed then 1 else 0
  }

  // What one call's replies come to on the breaker of this venue.
  function GoodAt(c: Call, v: Venue): nat { if c.req.venue == v && !c.req.riskReducing then Good(c.replies) else 0 }

  function HeardAt(c: Call, v: Venue): nat { if c.req.venue == v && !c.req.riskReducing then |c.replies| else 0 }

  function AllGood(calls: seq<Call>, v: Venue): nat {
    if calls == [] then 0 else AllGood(calls[..|calls| - 1], v) + GoodAt(calls[|calls| - 1], v)
  }

  function AllHeard(calls: seq<Call>, v: Venue): nat {
    if calls == [] then 0 else AllHeard(calls[..|calls| - 1], v) + HeardAt(calls[|calls| - 1], v)
  }

  lemma {:induction false} OneCallChanged(calls: seq<Call>, i: nat, c: Call, v: Venue)
    requires i < |calls|
    ensures AllGood(calls[i := c], v) == AllGood(calls, v) - GoodAt(calls[i], v) + GoodAt(c, v)
    ensures AllHeard(calls[i := c], v) == AllHeard(calls, v) - HeardAt(calls[i], v) + HeardAt(c, v)
  {
    hide GoodAt, HeardAt;
    var n := |calls| - 1;
    if i < n {
      assert calls[i := c][..n] == calls[..n][i := c];
      OneCallChanged(calls[..n], i, c, v);
    } else {
      assert calls[i := c][..n] == calls[..n];
    }
  }

  lemma OneCallMore(calls: seq<Call>, c: Call, v: Venue)
    requires c.replies == []
    ensures AllGood(calls + [c], v) == AllGood(calls, v) && AllHeard(calls + [c], v) == AllHeard(calls, v)
  {
    assert (calls + [c])[..|calls + [c]| - 1] == calls;
  }

  // The breaker of each venue has counted the replies to opening orders there, of all calls,
  // each by what it said.
  ghost predicate CountsReplies(w: World) {
    forall v :: v in w.breakers ==> CountsAt(w, v)
  }

  ghost predicate CountsAt(w: World, v: Venue)
    requires v in w.breakers
  {
    && w.breakers[v].successes == AllGood(w.calls, v)
    && w.breakers[v].failures == AllHeard(w.calls, v) - AllGood(w.calls, v)
  }

  lemma StepCountsReplies(s: Setup, w: World, e: Event)
    requires CountsReplies(w) && w.breakers.Keys == {Kalshi, Polymarket}
    ensures CountsReplies(Step(s, w, e)) && Step(s, w, e).breakers.Keys == {Kalshi, Polymarket}
  {
    hide B.Admit, B.OnSuccess, B.OnFailure, B.Reset, AllGood, AllHeard, Possible, DoAttempt, DoAnswer;
    forall v | v in w.breakers ensures v in Step(s, w, e).breakers && CountsAt(Step(s, w, e), v) {
      assert CountsAt(w, v);
      match e
      case Start(req, key) => OneCallMore(w.calls, Step(s, w, e).calls[|w.calls|], v);
      case Attempt(i, _, _, _, _, _) =>
        if i < |w.calls| && w.calls[i].phase.Ready? { AttemptCounts(s, w, e, v); }
      case Answer(i, reply, _, _) =>
        if i < |w.calls| && w.calls[i].phase.Posting? { AnswerCounts(s, w, e, v); }
      case Cancel(i) =>
        if i < |w.calls| && !w.calls[i].phase.Finished? { OneCallChanged(w.calls, i, Step(s, w, e).calls[i], v); }
      case Halting(_) =>
      case BreakerReset(u, now) => B.StepCounts(s.config, w.breakers[v], B.OperatorReset(now));
    }
    BreakersStay(s, w, e);
    forall v | v in Step(s, w, e).breakers ensures CountsAt(Step(s, w, e), v) { assert v in w.breakers; }
  }

  lemma BreakersStay(s: Setup, w: World, e: Event)
    ensures Step(s, w, e).breakers.Keys == w.breakers.Keys
  {
    hide B.Admit, B.OnSuccess, B.OnFailure, B.Reset, Possible, NextPhase;
  }

  lemma AttemptCounts(s: Setup, w: World, e: Event, v: Venue)
    requires e.Attempt? && e.i < |w.calls| && w.calls[e.i].phase.Ready? && v in w.breakers && CountsAt(w, v)
    ensures v in DoAttempt(s, w, e).breakers && CountsAt(DoAttempt(s, w, e), v)
  {
    hide B.Admit, AllGood, AllHeard;
    OneCallChanged(w.calls, e.i, DoAttempt(s, w, e).calls[e.i], v);
    B.StepCounts(s.config, w.breakers[v], B.Start(e.t1, e.t2, e.t3, e.t4));
  }

  lemma AnswerCounts(s: Setup, w: World, e: Event, v: Venue)
    requires e.Answer? && e.i < |w.calls| && w.calls[e.i].phase.Posting? && v in w.breakers && CountsAt(w, v)
    ensures v in DoAnswer(s, w, e).breakers && CountsAt(DoAnswer(s, w, e), v)
  {
    hide B.OnSuccess, B.OnFailure, AllGood, AllHeard, Good, NextPhase;
    var c := w.calls[e.i];
    OneCallChanged(w.calls, e.i, DoAnswer(s, w, e).calls[e.i], v);
    GoodSnoc(c.replies, e.reply);
    B.StepCounts(s.config, w.breakers[v], B.Success(e.t1));
    B.StepCounts(s.config, w.breakers[v], B.Failure(e.t1, e.t2));
  }

  // A call starts ready unless a halt stops it or its venue has no gateway.
  lemma StartEnds(s: Setup, w: World, req: Request, key: string)
    ensures var w', n := Step(s, w, Start(req, key)), |w.calls|;
            && |w'.calls| == n + 1 && w'.calls[..n] == w.calls && w'.kill == w.kill && w'.breakers == w.breakers
            && var c := w'.calls[n];
               && c.req == req && c.id == ClientIdOf(req, key) && c.replies == []
               && c.phase == (if K.Active(w.kill) && !req.riskReducing then Finished(HaltedOutcome(req.size))
                              else if req.venue in s.gateways then Ready else Finished(FailedOutcome(req.size)))
  {
  }

  // An attempt of an opening call goes to its gateway exactly when the gate leaves the circuit
  // not open; otherwise everything is halted and the call with it.
  lemma AttemptEnds(s: Setup, w: World, i: nat, t1: real, t2: real, t3: real, t4: real, written: bool)
    requires i < |w.calls| && w.calls[i].phase.Ready? && !w.calls[i].req.riskReducing
    requires w.calls[i].req.venue in w.breakers
    ensures var w', v := Step(s, w, Attempt(i, t1, t2, t3, t4, written)), w.calls[i].req.venue;
            && i < |w'.calls| && v in w'.breakers
            && (w'.calls[i].phase == Posting <==> w'.breakers[v].state != B.Open)
            && (w'.calls[i].phase == Posting ==> w'.kill == w.kill)
            && (w'.calls[i].phase != Posting ==>
                  && w'.calls[i].phase == Finished(HaltedOutcome(w.calls[i].req.size))
                  && w'.kill.tripped && w'.kill.reason
                    == Some("circuit_open:" + if v == Kalshi then "kalshi" else "polymarket")
                  && (w'.kill.sentinel <==> w.kill.sentinel || written))
            && forall u :: u in w.breakers && u != v ==> u in w'.breakers && w'.breakers[u] == w.breakers[u]
  {
    hide B.Admit;
    var c := w.calls[i];
    B.RefusedIff(s.config, w.breakers[c.req.venue], t1, t2, t3, t4);
  }

  // A call goes on exactly after a reply that may be retried with attempts left; otherwise it
  // ends as its last reply says.
  lemma AnswerEnds(s: Setup, w: World, i: nat, reply: Reply, t1: real, t2: real)
    requires i < |w.calls| && w.calls[i].phase.Posting? && Possible(w.calls[i].req, reply)
    ensures var w', c := Step(s, w, Answer(i, reply, t1, t2)), w.calls[i];
            && i < |w'.calls| && w'.calls[i].replies == c.replies + [reply] && w'.kill == w.kill
            && w'.calls[i].phase == (if RetriesAfter(reply) && |c.replies| < s.maxRetries then Ready
                                     else Finished(OutcomeOf(reply, c.req)))
  {
    hide B.OnSuccess, B.OnFailure;
  }

  lemma GoodSnoc(replies: seq<Reply>, r: Reply)
    ensures Good(replies + [r]) == Good(replies) + if r.Returned? && r.outcome.status != Failed then 1 else 0
  {
    assert (replies + [r])[..|replies + [r]| - 1] == replies;
  }

  lemma {:induction false} RunCountsReplies(s: Setup, w: World, es: seq<Event>)
    requires CountsReplies(w) && w.breakers.Keys == {Kalshi, Polymarket}
    ensures CountsReplies(Run(s, w, es))
    decreases |es|
  {
    hide CountsReplies, Step;
    if es != [] {
      StepCountsReplies(s, w, es[0]);
      RunCountsReplies(s, Step(s, w, es[0]), es[1..]);
    }
  }

  // In every reachable state: whatever calls overlapped, were cancelled or halted.
  lemma BreakersCountReplies(s: Setup, kill: K.Kill, now: real, es: seq<Event>)
    ensures CountsReplies(Run(s, Initial(kill, now), es))
  {
    RunCountsReplies(s, Initial(kill, now), es);
  }

  // ------------------------------------------------------------- the halt

  // A run over which the halt, up at the start, is never lifted.
  predicate HaltStays(s: Setup, w: World, es: seq<Event>)
    decreases |es|
  {
    && K.HaltUp(w.kill)
    && (es != [] ==> K.HaltUp(Step(s, w, es[0]).kill) && HaltStays(s, Step(s, w, es[0]), es[1..]))
  }

  // Operator events aside, nothing takes the halt down: it stays until one of them lifts it.
  lemma OnlyOperatorsLift(s: Setup, w: World, e: Event)
    requires K.HaltUp(w.kill)
    ensures !K.HaltUp(Step(s, w, e).kill) <==> e.Halting? && K.Lifts(w.kill, e.e)
  {
    hide B.Admit, B.OnSuccess, B.OnFailure, NextPhase;
  }

  // A call keeps its request, its id and how it met the halt.
  lemma {:induction false} CallsPersist(s: Setup, w: World, es: seq<Event>)
    ensures |Run(s, w, es).calls| >= |w.calls|
    ensures forall i :: 0 <= i < |w.calls| ==> SameCall(Run(s, w, es).calls[i], w.calls[i])
    decreases |es|
  {
    hide DoAttempt, DoAnswer;
    if es != [] {
      StepPersists(s, w, es[0]);
      CallsPersist(s, Step(s, w, es[0]), es[1..]);
    }
  }

  predicate SameCall(a: Call, b: Call) { a.req == b.req && a.id == b.id && a.metHalt == b.metHalt }

  lemma StepPersists(s: Setup, w: World, e: Event)
    ensures |Step(s, w, e).calls| >= |w.calls|
    ensures forall i :: 0 <= i < |w.calls| ==> SameCall(Step(s, w, e).calls[i], w.calls[i])
  {
    hide B.Admit, B.OnSuccess, B.OnFailure, NextPhase;
  }

  // A halt that stays is met by every opening call that starts under it.
  ghost predicate HaltedFrom(w: World, first: nat) {
    && K.HaltUp(w.kill)
    && forall i :: first <= i < |w.calls| ==> (w.calls[i].metHalt <==> !w.calls[i].req.riskReducing)
  }

  lemma StepUnderHalt(s: Setup, w: World, e: Event, first: nat)
    requires HaltedFrom(w, first) && K.HaltUp(Step(s, w, e).kill) && first <= |w.calls|
    ensures HaltedFrom(Step(s, w, e), first)
  {
    hide B.Admit, B.OnSuccess, B.OnFailure, NextPhase;
    StepPersists(s, w, e);
  }

  lemma {:induction false} RunUnderHalt(s: Setup, w: World, es: seq<Event>, first: nat)
    requires HaltedFrom(w, first) && HaltStays(s, w, es) && first <= |w.calls|
    ensures HaltedFrom(Run(s, w, es), first)
    decreases |es|
  {
    hide Step, HaltedFrom;
    if es != [] {
      StepUnderHalt(s, w, es[0], first);
      StepPersists(s, w, es[0]);
      RunUnderHalt(s, Step(s, w, es[0]), es[1..], first);
    }
  }

  // No opening call that starts while the halt is up ever reaches a gateway: not then,
  // and not after any later reset either.
  lemma HaltedCallsNeverPost(s: Setup, w: World, under: seq<Event>, later: seq<Event>, i: nat)
    requires Sensible(s) && WorldSound(s, w) && HaltStays(s, w, under)
    requires |w.calls| <= i < |Run(s, w, under).calls|
    ensures var mid := Run(s, w, under);
            var end := Run(s, mid, later);
            && i < |end.calls|
            && (!end.calls[i].req.riskReducing ==>
                  (Posts(end.calls[i]) == 0 && end.calls[i].phase == Finished(HaltedOutcome(end.calls[i].req.size))))
  {
    hide WorldSound, Run;
    var mid := Run(s, w, under);
    RunUnderHalt(s, w, under, |w.calls|);
    RunSound(s, w, under);
    RunSound(s, mid, later);
    CallsPersist(s, mid, later);
    SoundAt(s, Run(s, mid, later), i);
  }

  lemma SoundAt(s: Setup, w: World, i: nat)
    requires WorldSound(s, w) && i < |w.calls|
    ensures CallSound(s, w.calls[i])
  {
  }

  // A risk-reducing call with a gateway is never held up, by the halt or by its breaker.
  lemma RiskReducingPasses(s: Setup, w: World, req: Request, key: string,
                           t1: real, t2: real, t3: real, t4: real, written: bool)
    requires req.riskReducing && req.venue in s.gateways
    ensures var i := |w.calls|;
            var w' := Run(s, w, [Start(req, key), Attempt(i, t1, t2, t3, t4, written)]);
            && i < |w'.calls| && w'.calls[i].phase == Posting && w'.kill == w.kill && w'.breakers == w.breakers
  {
    hide B.Admit;
    var i := |w.calls|;
    var w1 := Step(s, w, Start(req, key));
    var es := [Start(req, key), Attempt(i, t1, t2, t3, t4, written)];
    assert es[1..][1..] == [];
    assert Run(s, w1, es[1..]) == Run(s, Step(s, w1, es[1]), es[1..][1..]);
  }

  // The halt is read once, when a call starts: one already under way goes on posting.
  lemma InFlightCallsKeepPosting(s: Setup, kill: K.Kill, req: Request, now: real)
    requires s.maxRetries >= 1 && !K.Active(kill) && !req.riskReducing && req.venue in s.gateways
    requires s.config.failureThreshold >= 2
    ensures var attempt := Attempt(0, now, now, now, now, true);
            var es := [Start(req, ""), attempt, Answer(0, Raised, now, now),
                       Halting(K.Tripping("operator", true)), attempt];
            var w := Run(s, Initial(kill, now), es);
            |w.calls| == 1 && K.Active(w.kill) && Posts(w.calls[0]) == 2
  {
    var attempt := Attempt(0, now, now, now, now, true);
    var w0 := Initial(kill, now);
    var w1 := Step(s, w0, Start(req, ""));
    assert w1.calls == [Call(req, ClientIdOf(req, ""), Ready, [], false)];
    BothVenues(w0, req.venue);
    var w2 := Step(s, w1, attempt);
    FreshAdmits(s.config, B.Fresh(now), now);
    assert w2.calls == [w1.calls[0].(phase := Posting)];
    var w3 := Step(s, w2, Answer(0, Raised, now, now));
    assert [] + [Raised] == [Raised];
    assert w3.calls == [w1.calls[0].(replies := [Raised])];
    var w4 := Step(s, w3, Halting(K.Tripping("operator", true)));
    OneFailureAdmits(s.config, now);
    var w5 := Step(s, w4, attempt);
    RunFive(s, w0, Start(req, ""), attempt, Answer(0, Raised, now, now), Halting(K.Tripping("operator", true)),
            attempt);
  }

  lemma RunFive(s: Setup, w: World, a: Event, b: Event, c: Event, d: Event, e: Event)
    ensures Run(s, w, [a, b, c, d, e]) == Step(s, Step(s, Step(s, Step(s, Step(s, w, a), b), c), d), e)
  {
    hide Step;
    assert [a, b, c, d, e][1..] == [b, c, d, e] && [b, c, d, e][1..] == [c, d, e];
    assert [c, d, e][1..] == [d, e] && [d, e][1..] == [e] && [e][1..] == [];
    var w2 := Step(s, Step(s, w, a), b);
    assert Run(s, w, [a, b, c, d, e]) == Run(s, w2, [c, d, e]);
    var w4 := Step(s, Step(s, w2, c), d);
    assert Run(s, w2, [c, d, e]) == Run(s, w4, [e]);
  }

  lemma FreshAdmits(c: B.Config, st: B.Stats, now: real)
    requires st.state == B.Closed && st.failureTimes == []
    ensures B.Admit(c, st, now, now, now, now) == (st, true)
  {
  }

  lemma OneFailureAdmits(c: B.Config, now: real)
    requires c.failureThreshold >= 2
    ensures var st := B.OnFailure(c, B.Fresh(now), now, now);
            st.state == B.Closed && B.Admit(c, st, now, now, now, now) == (st, true)
  {
    var st := B.OnFailure(c, B.Fresh(now), now, now);
    assert [] + [now] == [now];
    assert |B.After(st.failureTimes, now - c.monitoringWindow)| <= |st.failureTimes| <= 1;
  }
}
