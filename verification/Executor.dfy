/** The two-leg arbitrage executor: pre-flight checks, both legs at once, the hedge of any
    imbalance, and whole runs of trades among operator events and restarts. */
module Executor {
  import opened VenueFees
  import opened Ladders
  import opened Wrappers
  import opened OrderTypes
  import opened ExecutionEngines
  import opened KillSwitching
  import opened Hedges

  // ---------------------------------------------------------------- opportunities

  datatype Opportunity = Opportunity(id: string, strategyType: Option<string>, kalshiYes: bool, buyOnKalshi: bool,
                                     kalshiPrice: real, polyPrice: real, volume: real, totalProfit: real,
                                     ticker: string, token: string)

  datatype Settings = Settings(live: bool, hedgeEnabled: bool, maxDailyLoss: real, minProfit: real,
                               maxPosition: real, liveNotional: real, maxConcurrent: int, pmTif: Tif)

  predicate Complementary(opp: Opportunity) { opp.strategyType == Some("complementary") }

  function BuyPrice(opp: Opportunity): real { if opp.buyOnKalshi then opp.kalshiPrice else opp.polyPrice }

  function NotionalCap(s: Settings): real {
    if s.live then Min(s.maxPosition, s.liveNotional) else s.maxPosition
  }

  // Keeps a whole size whole across the division.
  const NUDGE := 0.000000001

  function CappedVolume(s: Settings, opp: Opportunity): real {
    var avg := Max(BuyPrice(opp), 0.01);
    (Min(opp.volume, NotionalCap(s) / avg) + NUDGE).Floor as real
  }

  // The largest whole number of contracts within the depth and, at the price of the
  // buying leg but never less than a cent, within the position limit and in live mode the
  // notional one too; up to a billionth of a contract before the floor.
  lemma CappedVolumeIsLargest(s: Settings, opp: Opportunity)
    ensures var v, price := CappedVolume(s, opp), Max(if opp.buyOnKalshi then opp.kalshiPrice else opp.polyPrice, 0.01);
            var low, more := v - 0.000000001, v + 1.0 - 0.000000001;
            && v == v.Floor as real
            && low <= opp.volume && low * price <= s.maxPosition && (s.live ==> low * price <= s.liveNotional)
            && (more > opp.volume || more * price > s.maxPosition || (s.live && more * price > s.liveNotional))
            && (opp.volume >= 0.0 && NotionalCap(s) >= 0.0 ==> v >= 0.0)
    ensures (CappedVolume(s, opp) - NUDGE) * Max(BuyPrice(opp), 0.01) <= NotionalCap(s)
  {
    var price, cap := Max(BuyPrice(opp), 0.01), NotionalCap(s);
    var v := CappedVolume(s, opp);
    WithinLimit(v - NUDGE, cap, price);
    WithinLimit(v + 1.0 - NUDGE, cap, price);
    WithinLimit(0.0, cap, price);
  }

  // Comparing with cap / price is comparing the notional with cap.
  lemma WithinLimit(x: real, cap: real, price: real)
    requires price > 0.0
    ensures x <= cap / price <==> x * price <= cap
  {
    var limit := cap / price;
    assert limit * price == cap;
    SignOfProduct(x - limit, price);
    assert (x - limit) * price == x * price - limit * price;
  }

  function BuildLegs(s: Settings, opp: Opportunity): Option<(Request, Request)> {
    var volume := CappedVolume(s, opp);
    if volume <= 0.0 then None
    else
      var kalshi := (action, side) =>
        Request(Kalshi, action, volume, opp.kalshiPrice, opp.ticker, side, IOC, false, opp.id);
      var poly := action => Request(Polymarket, action, volume, opp.polyPrice, opp.token, "yes", s.pmTif, false,
                                    opp.id);
      if Complementary(opp) then Some((kalshi(Buy, if opp.kalshiYes then "yes" else "no"), poly(Buy)))
      else if opp.buyOnKalshi then Some((kalshi(Buy, "yes"), poly(Sell)))
      else Some((poly(Buy), kalshi(Sell, "yes")))
  }

  // Venue-side terms of one leg.
  predicate LegFor(r: Request, s: Settings, opp: Opportunity, volume: real) {
    && !r.riskReducing && r.size == volume && r.opportunity == opp.id
    && (r.venue.Kalshi? ==>
          && r.limitPrice == opp.kalshiPrice && r.instrument == opp.ticker && r.tif == IOC
          && r.outcomeSide == (if Complementary(opp) && !opp.kalshiYes then "no" else "yes"))
    && (r.venue.Polymarket? ==>
          r.limitPrice == opp.polyPrice && r.instrument == opp.token && r.tif == s.pmTif && r.outcomeSide == "yes")
  }

  // Legs are built exactly when a whole contract fits: one opening order on each venue, at
  // that venue's own price and instrument, for the same size; the first on the buying venue.
  lemma LegsMatch(s: Settings, opp: Opportunity)
    ensures BuildLegs(s, opp).Some? <==> CappedVolume(s, opp) >= 1.0
    ensures BuildLegs(s, opp).Some? ==>
              var (a, b) := BuildLegs(s, opp).value;
              && LegFor(a, s, opp, CappedVolume(s, opp)) && LegFor(b, s, opp, CappedVolume(s, opp))
              && a.venue != b.venue && a.action == Buy && (b.action == Buy <==> Complementary(opp))
              && (a.venue.Kalshi? <==> Complementary(opp) || opp.buyOnKalshi)
  {
    CappedVolumeIsLargest(s, opp);
  }

  // The venue price the notional cap is not taken at.
  function OtherPrice(opp: Opportunity): real { if opp.buyOnKalshi then opp.polyPrice else opp.kalshiPrice }

  // Both legs of a complementary pair spend money; the cap holds for both, at every depth
  // and under every cap, exactly when the other leg is not the dearer one.
  lemma BothLegsCappedIff(opp: Opportunity)
    requires Complementary(opp)
    ensures (forall s: Settings, volume: real :: OtherLegCapped(s, opp, volume))
            <==> OtherPrice(opp) <= Max(BuyPrice(opp), 0.01)
  {
    var price, other := Max(BuyPrice(opp), 0.01), OtherPrice(opp);
    if other <= price {
      forall s: Settings, volume: real ensures OtherLegCapped(s, opp, volume) {
        CheaperLegCapped(s, opp.(volume := volume));
      }
    } else {
      var s, volume := DearerLegEscapes(opp);
      assert !OtherLegCapped(s, opp, volume);
    }
  }

  // The other leg's notional, up to the nudge, at this depth.
  predicate OtherLegCapped(s: Settings, opp: Opportunity, volume: real) {
    var v := CappedVolume(s, opp.(volume := volume));
    v >= 1.0 ==> (v - NUDGE) * OtherPrice(opp) <= NotionalCap(s)
  }

  lemma CheaperLegCapped(s: Settings, opp: Opportunity)
    requires OtherPrice(opp) <= Max(BuyPrice(opp), 0.01)
    ensures CappedVolume(s, opp) >= 1.0 ==> (CappedVolume(s, opp) - NUDGE) * OtherPrice(opp) <= NotionalCap(s)
  {
    CappedVolumeIsLargest(s, opp);
    var v := CappedVolume(s, opp);
    if v >= 1.0 { MulMono(OtherPrice(opp), Max(BuyPrice(opp), 0.01), v - NUDGE); }
  }

  // Deep enough, any dearer leg breaks its cap.
  lemma DearerLegEscapes(opp: Opportunity) returns (s: Settings, volume: real)
    requires OtherPrice(opp) > Max(BuyPrice(opp), 0.01)
    ensures !OtherLegCapped(s, opp, volume)
  {
    hide CappedVolume;
    var price, other := Max(BuyPrice(opp), 0.01), OtherPrice(opp);
    var k := DeepEnough(price, other);
    volume := k as real;
    s := Settings(false, true, 0.0, 0.0, price * volume, 0.0, 1, FOK);
    ExactlyFits(s, opp.(volume := volume), k);
  }

  lemma DeepEnough(price: real, other: real) returns (k: int)
    requires other > price > 0.0
    ensures k >= 1 && (k as real - NUDGE) * other > price * k as real
  {
    var ratio := NUDGE * other / (other - price);
    assert ratio * (other - price) == NUDGE * other;
    SignOfProduct(ratio, other - price);
    k := ratio.Floor + 1;
    var n := k as real;
    ProductPositive(n - ratio, other - price);
    assert (n - ratio) * (other - price) == n * other - price * n - NUDGE * other;
    assert (n - NUDGE) * other == n * other - NUDGE * other;
  }

  lemma ExactlyFits(s: Settings, opp: Opportunity, k: int)
    requires k >= 1 && opp.volume == k as real && NotionalCap(s) == Max(BuyPrice(opp), 0.01) * k as real
    ensures CappedVolume(s, opp) == k as real
  {
    DividesBack(Max(BuyPrice(opp), 0.01), k as real);
    NudgeStaysBelow(k);
  }

  lemma DividesBack(a: real, b: real)
    requires a > 0.0
    ensures a * b / a == b
  {
    var q := a * b / a;
    assert (q - b) * a == 0.0;
    SignOfProduct(q - b, a);
    SignOfProduct(b - q, a);
  }

  lemma NudgeStaysBelow(k: int)
    ensures (k as real + NUDGE).Floor == k
  {
  }

  // A pair of 10 and 85 cents under a cap of five dollars pays over forty on its other leg.
  lemma OtherLegIsNotCapped(s: Settings, opp: Opportunity)
    requires NotionalCap(s) == 5.0 && opp.volume >= 50.0 && Complementary(opp)
    requires opp.buyOnKalshi && opp.kalshiPrice == 0.10 && opp.polyPrice == 0.85
    ensures CappedVolume(s, opp) == 50.0 && CappedVolume(s, opp) * opp.polyPrice == 42.5
  {
  }

  datatype Rejection = HaltedBy(reason: string) | DailyLossLimit | BelowMinProfit | RiskRejected
                     | NotAllowlisted | MaxConcurrent | InsufficientBalance

  // What the gates the model does not compute answered.
  datatype Gates = Gates(riskRejects: bool, allowlisted: bool, balanceShort: bool)

  function PreFlight(s: Settings, kill: Kill, dailyLoss: real, inFlight: int, opp: Opportunity,
                     g: Gates): Option<Rejection> {
    if RefusedAtHalt(s, kill) then HaltedReason(kill)
    else if dailyLoss >= s.maxDailyLoss then Some(DailyLossLimit)
    else if opp.totalProfit < s.minProfit then Some(BelowMinProfit)
    else if g.riskRejects then Some(RiskRejected)
    else if s.live && !g.allowlisted then Some(NotAllowlisted)
    else if s.live && inFlight >= s.maxConcurrent then Some(MaxConcurrent)
    else if s.live && g.balanceShort then Some(InsufficientBalance)
    else None
  }

  // The first check, which returns before the day is rolled over.
  predicate RefusedAtHalt(s: Settings, kill: Kill) {
    Active(kill) && (s.live || Why(kill) != Some("execution_disabled"))
  }

  // Every gate past the halt is open.
  predicate Cleared(s: Settings, dailyLoss: real, inFlight: int, opp: Opportunity, g: Gates) {
    && dailyLoss < s.maxDailyLoss && opp.totalProfit >= s.minProfit && !g.riskRejects
    && (s.live ==> g.allowlisted && inFlight < s.maxConcurrent && !g.balanceShort)
  }

  // A trade passes exactly when every gate is open and no halt is up, or none but a disabled
  // execution in paper mode; a refusal names the first gate that is shut.
  lemma PreFlightPassesIff(s: Settings, kill: Kill, dailyLoss: real, inFlight: int, opp: Opportunity, g: Gates)
    ensures RefusedAtHalt(s, kill) <==>
              Active(kill) && (s.live || (kill.enabled && !(kill.tripped && kill.reason == Some("execution_disabled"))))
    ensures PreFlight(s, kill, dailyLoss, inFlight, opp, g).None? <==>
              !RefusedAtHalt(s, kill) && Cleared(s, dailyLoss, inFlight, opp, g)
    ensures match PreFlight(s, kill, dailyLoss, inFlight, opp, g)
            case Some(HaltedBy(why)) => Some(why) == Why(kill)
            case Some(DailyLossLimit) => dailyLoss >= s.maxDailyLoss
            case Some(BelowMinProfit) => dailyLoss < s.maxDailyLoss && opp.totalProfit < s.minProfit
            case Some(RiskRejected) => dailyLoss < s.maxDailyLoss && opp.totalProfit >= s.minProfit && g.riskRejects
            case Some(NotAllowlisted) => s.live && !g.allowlisted && !g.riskRejects
            case Some(MaxConcurrent) => s.live && g.allowlisted && inFlight >= s.maxConcurrent
            case Some(InsufficientBalance) => s.live && g.allowlisted && inFlight < s.maxConcurrent && g.balanceShort
            case None => true
  {
  }

  // In paper mode a disabled execution passes every check, whatever halt is up, and the
  // engine's own reading is still active.
  lemma PaperPassesWhileHalted(s: Settings, kill: Kill, dailyLoss: real, inFlight: int, opp: Opportunity, g: Gates)
    requires !kill.enabled
    ensures Active(kill)
    ensures PreFlight(s, kill, dailyLoss, inFlight, opp, g).None?
       <==> !s.live && dailyLoss < s.maxDailyLoss && opp.totalProfit >= s.minProfit && !g.riskRejects
  {
  }

  function HaltedReason(kill: Kill): Option<Rejection>
    requires Active(kill)
  {
    Some(HaltedBy(Why(kill).value))
  }

  // ----------------------------------------------------------------- the result

  datatype Result = Result(filled: real, avgBuy: real, avgSell: real, buyFees: real, sellFees: real,
                           gross: real, net: real, buyFillId: Option<string>, sellFillId: Option<string>)

  function ResultOf(complementary: bool, buy: Outcome, sell: Outcome, filled: real): Result {
    var gross := if complementary then filled * 1.0 - (buy.avgPrice + sell.avgPrice) * filled
                 else sell.avgPrice * filled - buy.avgPrice * filled;
    Result(filled, buy.avgPrice, sell.avgPrice, buy.fees, sell.fees, gross, gross - buy.fees - sell.fees,
           buy.fillId, sell.fillId)
  }

  // One finished attempt at an opportunity; skipped for no reason when no contract fits.
  datatype Trade = Skipped(reason: Option<Rejection>) | NoFill | HedgedOnly(imbalance: real, hedging: Hedging)
                 | Executed(result: Result, imbalance: real, hedging: Hedging)

  predicate Finished(t: Trade) { t.HedgedOnly? || t.Executed? }

  // One engine call as it went: what was placed for it, what it reported, and whether the
  // execution timeout had cancelled it by then.
  datatype Call = Call(req: Request, posts: seq<Placement>, out: Outcome, cancelled: bool)

  // The calls of one trade: both legs, and the unwind if there was one.
  datatype Fired = Fired(buy: Call, sell: Call, unwind: Option<Call>)

  // A call under this key, reported as it ended or, cancelled, as filling nothing.
  ghost predicate Ran(c: Call, key: string, maxRetries: nat) {
    && |c.posts| <= maxRetries + 1 && Orderly(c.posts, c.req, ClientIdOf(c.req, key))
    && (forall p :: p in c.posts ==> Answered(p))
    && if c.cancelled then c.out == FailedOutcome(c.req.size) else EndsWith(c.posts, c.out, c.req, maxRetries)
  }

  function Appended(logs: Logs, c: Call): Logs {
    if c.req.venue in logs then logs[c.req.venue := logs[c.req.venue] + c.posts] else logs
  }

  function AfterUnwind(logs: Logs, unwind: Option<Call>): Logs {
    if unwind.Some? then Appended(logs, unwind.value) else logs
  }

  function Imbalance(f: Fired): real { f.buy.out.filled - f.sell.out.filled }

  // The legs that were built went out under their own keys; an imbalance of a contract or
  // more was unwound, by the reverse of the leg that filled more; nothing else was placed.
  ghost predicate FiredAs(s: Settings, maxRetries: nat, opp: Opportunity, f: Fired, before: Logs, after: Logs) {
    && BuildLegs(s, opp) == Some((f.buy.req, f.sell.req))
    && Ran(f.buy, opp.id + ":buy", maxRetries) && Ran(f.sell, opp.id + ":sell", maxRetries)
    && (f.unwind.Some? <==> s.hedgeEnabled && Abs(Imbalance(f)) >= 1.0)
    && (f.unwind.Some? ==> Unwinds(f.unwind.value, f.buy.req, f.buy.out, f.sell.req, f.sell.out, opp, maxRetries))
    && after == AfterUnwind(Appended(Appended(before, f.buy), f.sell), f.unwind)
  }

  ghost predicate Unwinds(c: Call, buyReq: Request, buy: Outcome, sellReq: Request, sell: Outcome, opp: Opportunity,
                          maxRetries: nat) {
    && c.req == (if buy.filled > sell.filled then UnwindRequest(buyReq, buy, buy.filled - sell.filled)
                 else UnwindRequest(sellReq, sell, sell.filled - buy.filled))
    && Ran(c, opp.id + ":hedge", maxRetries) && !c.cancelled
  }

  function HedgingOf(s: Settings, f: Fired): Hedging {
    if !s.hedgeEnabled then Balanced
    else HedgeOf(Imbalance(f), if f.unwind.Some? then f.unwind.value.out.filled else 0.0)
  }

  // What the trade is reported as: the matched size is executed, an unmatched one hedged.
  function TradeOf(s: Settings, opp: Opportunity, f: Fired): Trade {
    var matched := Min(f.buy.out.filled, f.sell.out.filled);
    if matched > EPS then
      Executed(ResultOf(Complementary(opp), f.buy.out, f.sell.out, matched), Imbalance(f), HedgingOf(s, f))
    else if Abs(Imbalance(f)) > EPS then HedgedOnly(Imbalance(f), HedgingOf(s, f))
    else NoFill
  }

  // A trade is executed exactly when both legs filled more than a millionth, for the smaller
  // of the two; it gains a dollar a pair less both costs, or what one leg sold for less what
  // the other cost, and pays both legs' fees.
  lemma WhatTradesReport(s: Settings, opp: Opportunity, f: Fired)
    ensures var t, buy, sell := TradeOf(s, opp, f), f.buy.out, f.sell.out;
            && (t.Executed? <==> buy.filled > 0.000001 && sell.filled > 0.000001)
            && (Finished(t) <==> t.Executed? || Abs(buy.filled - sell.filled) > 0.000001)
            && (t.Executed? ==>
                  var r := t.result;
                  && r.filled <= buy.filled && r.filled <= sell.filled
                  && (r.filled == buy.filled || r.filled == sell.filled)
                  && r.avgBuy == buy.avgPrice && r.avgSell == sell.avgPrice
                  && r.buyFees == buy.fees && r.sellFees == sell.fees
                  && r.buyFillId == buy.fillId && r.sellFillId == sell.fillId
                  && r.net == r.gross - buy.fees - sell.fees
                  && r.gross == if opp.strategyType == Some("complementary")
                     then r.filled * (1.0 - buy.avgPrice - sell.avgPrice)
                     else r.filled * (sell.avgPrice - buy.avgPrice))
            && (t.HedgedOnly? || t.Executed? ==> t.imbalance == buy.filled - sell.filled)
  {
    hide HedgingOf;
    PerPair(f.buy.out.avgPrice, f.sell.out.avgPrice, Min(f.buy.out.filled, f.sell.out.filled));
  }

  lemma PerPair(buyPrice: real, sellPrice: real, n: real)
    ensures n * 1.0 - (buyPrice + sellPrice) * n == n * (1.0 - buyPrice - sellPrice)
    ensures sellPrice * n - buyPrice * n == n * (sellPrice - buyPrice)
  {
  }

  // What a trade leaves behind is small, on either side.
  predicate Contained(t: Trade) {
    Finished(t) ==> SmallExposure(t.imbalance, Exposure(t.hedging))
  }

  // The trade's unwind reported a good deal more than it was for.
  predicate OverReported(t: Trade) {
    && Finished(t) && t.hedging.Unwound?
    && OverUnwound(Abs(t.imbalance), Abs(t.imbalance) - t.hedging.residual)
  }

  predicate Tripped(t: Trade) { Finished(t) && t.hedging.Unwound? && t.hedging.trips }

  // Three ways a hedged trade can end, and no other: small, halted, or over-reported.
  lemma TradeEnds(t: Trade)
    requires Finished(t) ==> IsHedge(t.hedging, t.imbalance)
    ensures !Contained(t) && !Tripped(t) <==> OverReported(t)
  {
    if Finished(t) {
      var unwound :| t.hedging == HedgeOf(t.imbalance, unwound);
      HedgeContains(t.imbalance, unwound);
    }
  }

  type Logs = map<Venue, seq<Placement>>

  predicate OverReports(p: Placement) { p.req.riskReducing && OverUnwound(p.req.size, FilledIn(p.reply)) }

  // Between these logs some gateway reported an unwind well above its size.
  ghost predicate OverLogged(before: Logs, after: Logs) {
    exists v, k :: v in before && v in after && |before[v]| <= k < |after[v]| && OverReports(after[v][k])
  }

  lemma LaterLogged(a: Logs, b: Logs, c: Logs)
    requires LogsGrow(a, b) && LogsGrow(b, c)
    ensures LogsGrow(a, c) && (OverLogged(b, c) ==> OverLogged(a, c)) && (OverLogged(a, b) ==> OverLogged(a, c))
  {
    hide OverReports;
    if OverLogged(b, c) {
      var v, k :| v in b && v in c && |b[v]| <= k < |c[v]| && OverReports(c[v][k]);
      assert |a[v]| <= |b[v]|;
    }
    if OverLogged(a, b) {
      var v, k :| v in a && v in b && |a[v]| <= k < |b[v]| && OverReports(b[v][k]);
      assert b[v] <= c[v] && c[v][k] == b[v][k];
    }
  }

  lemma LogsSame(logs: Logs)
    ensures LogsGrow(logs, logs)
  {
  }

  lemma HaltSame(kill: Kill)
    ensures HaltGrows(kill, kill)
  {
  }

  lemma SkippedIsContained(reason: Option<Rejection>)
    ensures Contained(Skipped(reason)) && !Finished(Skipped(reason))
  {
  }

  lemma AppendedGrows(logs: Logs, c: Call)
    ensures LogsGrow(logs, Appended(logs, c)) && (c.posts == [] ==> Appended(logs, c) == logs)
  {
    if c.posts == [] && c.req.venue in logs { assert logs[c.req.venue] + c.posts == logs[c.req.venue]; }
  }

  lemma AppendedEither(logs: Logs, a: Call, b: Call)
    requires a.req.venue != b.req.venue
    ensures Appended(Appended(logs, a), b) == Appended(Appended(logs, b), a)
  {
  }

  // The logs only grow, and show any placement of a leg and any over-reported unwind.
  lemma LogsOfTrade(before: Logs, f: Fired, mid: Logs)
    requires mid == Appended(Appended(before, f.buy), f.sell)
    ensures LogsGrow(before, mid) && LogsGrow(mid, AfterUnwind(mid, f.unwind))
    ensures LogsGrow(before, AfterUnwind(mid, f.unwind))
    ensures mid != before ==> AfterUnwind(mid, f.unwind) != before
    ensures OverLogged(mid, AfterUnwind(mid, f.unwind)) ==> OverLogged(before, AfterUnwind(mid, f.unwind))
  {
    hide Appended, OverLogged;
    AppendedGrows(before, f.buy);
    AppendedGrows(Appended(before, f.buy), f.sell);
    LaterLogged(before, Appended(before, f.buy), mid);
    LogsSame(mid);
    if f.unwind.Some? { AppendedGrows(mid, f.unwind.value); }
    LaterLogged(before, mid, AfterUnwind(mid, f.unwind));
    if AfterUnwind(mid, f.unwind) == before { GrownTwice(before, mid, before); }
  }

  lemma GrownTwice(a: Logs, b: Logs, c: Logs)
    requires LogsGrow(a, b) && LogsGrow(b, c) && c == a
    ensures b == a
  {
    forall v | v in a ensures b[v] == a[v] { assert |a[v]| <= |b[v]| <= |c[v]|; }
  }

  lemma NoUnwind(logs: Logs, imbalance: real)
    ensures AfterUnwind(logs, None) == logs
    ensures Abs(imbalance) <= EPS ==> HedgeOf(imbalance, 0.0) == Balanced
  {
  }

  // A hedged trade is contained, or tripped the halt, or over-reported its unwind.
  lemma TradeEndsAs(s: Settings, opp: Opportunity, f: Fired, before: Logs, after: Logs)
    requires s.hedgeEnabled && (f.unwind.Some? <==> Abs(Imbalance(f)) >= 1.0)
    requires f.unwind.Some? && OverUnwound(Abs(Imbalance(f)), f.unwind.value.out.filled) ==> OverLogged(before, after)
    ensures var t := TradeOf(s, opp, f);
            Contained(t) || Tripped(t) || (OverReported(t) && OverLogged(before, after))
  {
    hide OverLogged, OverUnwound, HedgeOf, ResultOf;
    var t := TradeOf(s, opp, f);
    HedgeCases(Imbalance(f), if f.unwind.Some? then f.unwind.value.out.filled else 0.0);
    TradeEnds(t);
  }

  lemma HedgeCases(imbalance: real, unwound: real)
    ensures var h := HedgeOf(imbalance, unwound);
            && IsHedge(h, imbalance)
            && (h.Unwound? <==> Abs(imbalance) >= 1.0) && (h.Unwound? ==> h.residual == Abs(imbalance) - unwound)
  {
  }

  lemma AppendedShows(logs: Logs, a: Call, b: Call)
    requires a.req.venue != b.req.venue
    ensures a.req.venue in logs && a.posts != [] ==> Appended(Appended(logs, a), b) != logs
    ensures b.req.venue in logs && b.posts != [] ==> Appended(Appended(logs, a), b) != logs
  {
    var after := Appended(Appended(logs, a), b);
    if a.req.venue in logs && a.posts != [] { assert |after[a.req.venue]| > |logs[a.req.venue]|; }
    if b.req.venue in logs && b.posts != [] { assert |after[b.req.venue]| > |logs[b.req.venue]|; }
  }

  lemma AppendedIs(before: Logs, after: Logs, c: Call)
    requires before.Keys == after.Keys
    requires c.req.venue in before ==> after[c.req.venue] == before[c.req.venue] + c.posts
    requires forall v :: v in before && v != c.req.venue ==> after[v] == before[v]
    ensures after == Appended(before, c)
  {
  }

  // The last placement of a call is in its gateway's log.
  lemma LastIsLogged(before: Logs, after: Logs, req: Request, posts: seq<Placement>)
    requires req.riskReducing && req.size > 0.0 && LogsGrow(before, after)
    requires if req.venue in before then after[req.venue] == before[req.venue] + posts else posts == []
    requires forall p :: p in posts ==> p.req == req
    ensures OverUnwound(req.size, if posts == [] then 0.0 else FilledIn(posts[|posts| - 1].reply))
            ==> OverLogged(before, after)
  {
    if posts != [] {
      var last := |after[req.venue]| - 1;
      assert posts[|posts| - 1] in posts;
      assert after[req.venue][last] == posts[|posts| - 1];
    }
  }

  // An unwind as its call left it: in the logs, and over-reported only by a gateway.
  lemma UnwindLogged(before: Logs, after: Logs, c: Call, key: string, maxRetries: nat)
    requires c.req.riskReducing && c.req.size > 0.0 && LogsGrow(before, after)
    requires c.req.venue in before ==> after[c.req.venue] == before[c.req.venue] + c.posts
    requires c.req.venue !in before ==> c.posts == []
    requires forall v :: v in before && v != c.req.venue ==> after[v] == before[v]
    requires |c.posts| <= maxRetries + 1 && Orderly(c.posts, c.req, ClientIdOf(c.req, key))
    requires !c.cancelled && EndsWith(c.posts, c.out, c.req, maxRetries) && c.out.filled == TotalFilled(c.posts)
    requires forall p :: p in c.posts && p.reply.Returned? ==> WellFormed(p.reply.outcome)
    requires forall p :: p in c.posts ==> Answered(p)
    ensures after == Appended(before, c) && Ran(c, key, maxRetries)
    ensures OverUnwound(c.req.size, c.out.filled) ==> OverLogged(before, after)
  {
    hide OverUnwound, OverLogged, WellFormed, EndsWith, Answered;
    AppendedIs(before, after, c);
    OnlyLastFills(c.posts, c.req, ClientIdOf(c.req, key));
    LastIsLogged(before, after, c.req, c.posts);
  }

  // ------------------------------------------------------------------- whole runs

  datatype RunStep =
    | Opportune(opp: Opportunity, today: string, gates: Gates)
    | Operator(event: Event, now: real)

  // What the executor remembers from trade to trade.
  datatype Desk = Desk(loss: real, date: string, inFlight: int)

  function Rolled(d: Desk, today: string): Desk { if d.date != today then d.(loss := 0.0, date := today) else d }

  // The desk after a trade: rolled over unless refused at the halt, its loss less the net.
  function DeskAfter(s: Settings, d: Desk, kill: Kill, today: string, t: Trade): Desk {
    var d' := if RefusedAtHalt(s, kill) then d else Rolled(d, today);
    d'.(loss := d'.loss - if t.Executed? then t.result.net else 0.0)
  }

  // Do the legs go out? No halt is up but a disabled paper execution, every gate is open
  // once the day is rolled over, and a whole contract fits.
  predicate Goes(s: Settings, kill: Kill, d: Desk, opp: Opportunity, today: string, g: Gates) {
    && !RefusedAtHalt(s, kill) && Cleared(s, Rolled(d, today).loss, d.inFlight, opp, g)
    && CappedVolume(s, opp) >= 1.0
  }

  // A trade whose legs do not go out is reported with the gate that stopped it, if one did.
  function SkippedBy(s: Settings, kill: Kill, d: Desk, opp: Opportunity, today: string, g: Gates): Trade {
    Skipped(PreFlight(s, kill, Rolled(d, today).loss, d.inFlight, opp, g))
  }

  datatype Setup = Setup(settings: Settings, maxRetries: nat)

  // The halt, the logs and the desk on both sides of one step; the trade and its calls.
  datatype Record = Record(before: Kill, after: Kill, logsBefore: Logs, logsAfter: Logs, deskBefore: Desk,
                           deskAfter: Desk, trade: Trade, fired: Option<Fired>)

  predicate Posted(r: Record) { r.logsBefore != r.logsAfter }

  ghost predicate Fits(u: Setup, step: RunStep, r: Record) {
    match step
    case Operator(e, _) =>
      && r.after == Step(r.before, e) && !Posted(r) && r.trade == Skipped(None) && r.fired.None?
      && r.deskAfter == if e.Restarting? then Desk(0.0, "", 0) else r.deskBefore
    case Opportune(opp, today, gates) =>
      && HaltGrows(r.before, r.after) && LogsGrow(r.logsBefore, r.logsAfter)
      && TradeFits(u, opp, today, gates, r)
      && (Active(r.before) ==> !Posted(r) && !Finished(r.trade) && r.after == r.before)
      && (Contained(r.trade) || r.after.tripped || (OverReported(r.trade) && OverLogged(r.logsBefore, r.logsAfter)))
  }

  ghost predicate TradeFits(u: Setup, opp: Opportunity, today: string, gates: Gates, r: Record) {
    && (r.fired.Some? <==> Goes(u.settings, r.before, r.deskBefore, opp, today, gates))
    && (r.fired.None? ==>
          && r.trade == SkippedBy(u.settings, r.before, r.deskBefore, opp, today, gates)
          && !Posted(r) && r.after == r.before)
    && (r.fired.Some? ==>
          && FiredAs(u.settings, u.maxRetries, opp, r.fired.value, r.logsBefore, r.logsAfter)
          && r.trade == TradeOf(u.settings, opp, r.fired.value)
          && (!Active(r.before) && r.logsBefore.Keys == {Kalshi, Polymarket} ==> Posted(r) || r.after.tripped))
    && r.deskAfter == DeskAfter(u.settings, r.deskBefore, r.before, today, r.trade)
  }

  function EndKill(records: seq<Record>, kill: Kill): Kill {
    if records == [] then kill else records[|records| - 1].after
  }

  function EndDesk(records: seq<Record>, desk: Desk): Desk {
    if records == [] then desk else records[|records| - 1].deskAfter
  }

  function EndLogs(records: seq<Record>, logs: Logs): Logs {
    if records == [] then logs else records[|records| - 1].logsAfter
  }

  // One record a step, each starting where the last one ended.
  ghost predicate RunOf(u: Setup, steps: seq<RunStep>, records: seq<Record>, kill: Kill, logs: Logs, desk: Desk) {
    && |records| == |steps|
    && (forall k :: 0 <= k < |records| ==> Fits(u, steps[k], records[k]))
    && (forall k :: 0 <= k < |records| ==>
          && records[k].before == EndKill(records[..k], kill) && records[k].logsBefore == EndLogs(records[..k], logs)
          && records[k].deskBefore == EndDesk(records[..k], desk))
  }

  function TradesOf(steps: seq<RunStep>, records: seq<Record>): seq<Trade>
    requires |steps| == |records|
  {
    if steps == [] then []
    else
      var n := |steps| - 1;
      TradesOf(steps[..n], records[..n]) + (if steps[n].Opportune? then [records[n].trade] else [])
  }

  lemma NoSteps(u: Setup, kill: Kill, logs: Logs, desk: Desk)
    ensures RunOf(u, [], [], kill, logs, desk) && TradesOf([], []) == []
  {
  }

  lemma RunGrows(u: Setup, steps: seq<RunStep>, i: nat, records: seq<Record>, r: Record, kill: Kill, logs: Logs,
                 desk: Desk)
    requires i < |steps| && RunOf(u, steps[..i], records, kill, logs, desk) && Fits(u, steps[i], r)
    requires r.before == EndKill(records, kill) && r.logsBefore == EndLogs(records, logs)
    requires r.deskBefore == EndDesk(records, desk)
    ensures RunOf(u, steps[..i + 1], records + [r], kill, logs, desk)
  {
    hide Fits, EndKill, EndLogs, EndDesk;
    var more := records + [r];
    forall k | 0 <= k < i ensures more[..k] == records[..k] && more[k] == records[k] && steps[..i][k] == steps[k] {}
    assert more[..i] == records && records[..i] == records;
  }

  lemma TradesGrow(steps: seq<RunStep>, i: nat, records: seq<Record>, r: Record)
    requires i < |steps| && |records| == i
    ensures TradesOf(steps[..i + 1], records + [r])
         == TradesOf(steps[..i], records) + (if steps[i].Opportune? then [r.trade] else [])
  {
    assert steps[..i + 1][..i] == steps[..i] && (records + [r])[..i] == records;
    hide TradesOf;
    LastTrade(steps[..i + 1], records + [r]);
  }

  lemma LastTrade(steps: seq<RunStep>, records: seq<Record>)
    requires |steps| == |records| > 0
    ensures var n := |steps| - 1;
            TradesOf(steps, records)
            == TradesOf(steps[..n], records[..n]) + (if steps[n].Opportune? then [records[n].trade] else [])
  {
  }

  // Once the halt is up it stops every later trade, until something lifts it: no trade of
  // the run posts anything or finishes.
  lemma {:induction false} HaltedTradesPostNothing(u: Setup, steps: seq<RunStep>, records: seq<Record>, kill: Kill,
                                                   logs: Logs, desk: Desk, i: nat, k: nat)
    requires RunOf(u, steps, records, kill, logs, desk) && i < k < |records| && HaltUp(records[i].after)
    requires forall m :: i < m < k && steps[m].Operator? ==> !Lifts(records[m].before, steps[m].event)
    ensures HaltUp(records[k].before) && !Posted(records[k]) && !Finished(records[k].trade)
  {
    hide Fits, Lifts, Posted, Finished, HaltUp;
    assert Fits(u, steps[k], records[k]);
    assert records[k].before == records[k - 1].after;
    if i < k - 1 {
      HaltedTradesPostNothing(u, steps, records, kill, logs, desk, i, k - 1);
      assert Fits(u, steps[k - 1], records[k - 1]);
      StepKeepsHalt(u, steps[k - 1], records[k - 1]);
    }
    HaltStopsStep(u, steps[k], records[k]);
  }

  lemma StepKeepsHalt(u: Setup, step: RunStep, r: Record)
    requires Fits(u, step, r) && HaltUp(r.before) && (step.Operator? ==> !Lifts(r.before, step.event))
    ensures HaltUp(r.after)
  {
    hide LogsGrow, TradeFits, Contained, OverReported, OverLogged, Posted, Finished;
  }

  lemma HaltStopsStep(u: Setup, step: RunStep, r: Record)
    requires Fits(u, step, r) && HaltUp(r.before)
    ensures !Posted(r) && !Finished(r.trade)
  {
    hide LogsGrow, TradeFits, Contained, OverReported, OverLogged, HaltGrows;
  }

  lemma {:induction false} LogsGrowOverRun(u: Setup, steps: seq<RunStep>, records: seq<Record>, kill: Kill,
                                           logs: Logs, desk: Desk, k: nat)
    requires RunOf(u, steps, records, kill, logs, desk) && k < |records|
    ensures LogsGrow(logs, records[k].logsBefore) && LogsGrow(records[k].logsBefore, EndLogs(records, logs))
    ensures LogsGrow(records[k].logsBefore, records[k].logsAfter)
    ensures LogsGrow(records[k].logsAfter, EndLogs(records, logs))
  {
    GrowsTo(u, steps, records, kill, logs, desk, 0, k);
    GrowsTo(u, steps, records, kill, logs, desk, k, |records|);
    GrowsTo(u, steps, records, kill, logs, desk, k, k + 1);
    GrowsTo(u, steps, records, kill, logs, desk, k + 1, |records|);
    LogsAt(records, logs, 0);
    LogsAt(records, logs, k);
    LogsAt(records, logs, k + 1);
    LogsAt(records, logs, |records|);
  }

  // The logs before step k.
  function LogsBy(records: seq<Record>, logs: Logs, k: nat): Logs
    requires k <= |records|
  {
    EndLogs(records[..k], logs)
  }

  lemma LogsAt(records: seq<Record>, logs: Logs, k: nat)
    requires k <= |records|
    ensures k > 0 ==> LogsBy(records, logs, k) == records[k - 1].logsAfter
    ensures k == 0 ==> LogsBy(records, logs, k) == logs
    ensures k == |records| ==> LogsBy(records, logs, k) == EndLogs(records, logs)
  {
  }

  lemma {:induction false} GrowsTo(u: Setup, steps: seq<RunStep>, records: seq<Record>, kill: Kill, logs: Logs,
                                   desk: Desk, i: nat, k: nat)
    requires RunOf(u, steps, records, kill, logs, desk) && i <= k <= |records|
    ensures LogsGrow(LogsBy(records, logs, i), LogsBy(records, logs, k))
  {
    hide LogsGrow, TradeFits, Contained, OverReported, OverLogged, HaltGrows;
    if i == k {
      LogsSame(LogsBy(records, logs, i));
    } else {
      GrowsTo(u, steps, records, kill, logs, desk, i, k - 1);
      assert Fits(u, steps[k - 1], records[k - 1]);
      LogsAt(records, logs, k);
      LogsSame(records[k - 1].logsBefore);
      LaterLogged(LogsBy(records, logs, i), LogsBy(records, logs, k - 1), LogsBy(records, logs, k));
    }
  }

  // When no gateway over-reports an unwind during the run, every trade is contained, or the
  // halt was up when it finished.
  lemma EveryTradeContained(u: Setup, steps: seq<RunStep>, records: seq<Record>, kill: Kill, logs: Logs, desk: Desk,
                            k: nat)
    requires RunOf(u, steps, records, kill, logs, desk) && k < |records| && !OverLogged(logs, EndLogs(records, logs))
    ensures Contained(records[k].trade) || records[k].after.tripped
  {
    hide LogsGrow, TradeFits, OverLogged, HaltGrows, OverReported;
    assert Fits(u, steps[k], records[k]);
    LogsGrowOverRun(u, steps, records, kill, logs, desk, k);
    var r := records[k];
    if OverLogged(r.logsBefore, r.logsAfter) {
      LaterLogged(logs, r.logsBefore, r.logsAfter);
      LaterLogged(logs, r.logsAfter, EndLogs(records, logs));
    }
  }

  // Each step starts where the one before it ended.
  lemma StartsWhereEnded(u: Setup, steps: seq<RunStep>, records: seq<Record>, kill: Kill, logs: Logs, desk: Desk,
                         k: nat)
    requires RunOf(u, steps, records, kill, logs, desk) && 0 < k < |records|
    ensures Fits(u, steps[k], records[k]) && Fits(u, steps[k - 1], records[k - 1])
    ensures records[k].before == records[k - 1].after && records[k].logsBefore == records[k - 1].logsAfter
    ensures records[k].deskBefore == records[k - 1].deskAfter
  {
    hide Fits;
    assert records[..k] != [] && records[..k][k - 1] == records[k - 1];
  }

  // Nothing is placed but for trades that every gate let through: whatever a step posted or
  // finished, it was a trade with no halt up, below the day's loss limit, worth its while,
  // with no objection from the risk gate and, in live mode, approved, within the concurrency
  // limit and not known to be short of balance.
  lemma OnlyClearedTradesPost(u: Setup, steps: seq<RunStep>, records: seq<Record>, kill: Kill, logs: Logs,
                              desk: Desk, k: nat)
    requires RunOf(u, steps, records, kill, logs, desk) && k < |records|
    requires Posted(records[k]) || Finished(records[k].trade)
    ensures steps[k].Opportune? && !Active(records[k].before)
    ensures var (s, opp, g, d) := (u.settings, steps[k].opp, steps[k].gates, records[k].deskBefore);
            && (d.date == steps[k].today ==> d.loss < s.maxDailyLoss) && opp.totalProfit >= s.minProfit
            && !g.riskRejects && (s.live ==> g.allowlisted && d.inFlight < s.maxConcurrent && !g.balanceShort)
            && CappedVolume(s, opp) >= 1.0
  {
    hide FiredAs, TradeOf, HaltGrows, LogsGrow, Contained, OverReported, OverLogged, PreFlight;
    assert Fits(u, steps[k], records[k]);
  }

  // And every such trade does go out: it places an order, or a breaker halts everything.
  lemma ClearedTradesGoOut(u: Setup, steps: seq<RunStep>, records: seq<Record>, kill: Kill, logs: Logs,
                           desk: Desk, k: nat)
    requires RunOf(u, steps, records, kill, logs, desk) && k < |records| && steps[k].Opportune?
    requires !Active(records[k].before) && records[k].logsBefore.Keys == {Kalshi, Polymarket}
    requires var (s, opp, g, d) := (u.settings, steps[k].opp, steps[k].gates, records[k].deskBefore);
             && (if d.date == steps[k].today then d.loss else 0.0) < s.maxDailyLoss && opp.totalProfit >= s.minProfit
             && !g.riskRejects && (s.live ==> g.allowlisted && d.inFlight < s.maxConcurrent && !g.balanceShort)
             && CappedVolume(s, opp) >= 1.0
    ensures Posted(records[k]) || records[k].after.tripped
  {
    hide FiredAs, TradeOf, HaltGrows, LogsGrow, Contained, OverReported, OverLogged, PreFlight;
    assert Fits(u, steps[k], records[k]);
  }

  // Once a day's loss has reached the limit nothing more is placed that day, and the loss
  // stays as it is, unless the process restarts.
  lemma {:induction false} LossLimitHolds(u: Setup, steps: seq<RunStep>, records: seq<Record>, kill: Kill, logs: Logs,
                                          desk: Desk, i: nat, k: nat)
    requires RunOf(u, steps, records, kill, logs, desk) && i < k < |records|
    requires records[i].deskAfter.loss >= u.settings.maxDailyLoss
    requires forall m :: i < m <= k ==>
               if steps[m].Opportune? then steps[m].today == records[i].deskAfter.date else !steps[m].event.Restarting?
    ensures records[k].deskAfter == records[i].deskAfter && !Posted(records[k]) && !Finished(records[k].trade)
  {
    hide Fits, Posted, Finished;
    StartsWhereEnded(u, steps, records, kill, logs, desk, k);
    if i < k - 1 { LossLimitHolds(u, steps, records, kill, logs, desk, i, k - 1); }
    LimitStopsStep(u, steps[k], records[k]);
  }

  // What the executed trades of a stretch of steps netted.
  function NetOf(records: seq<Record>, i: nat, k: nat): real
    requires i <= k <= |records|
    decreases k - i
  {
    if i == k then 0.0
    else
      var t := records[k - 1].trade;
      NetOf(records, i, k - 1) + if t.Executed? then t.result.net else 0.0
  }

  // The running loss of a day is what its trades netted, turned round: from a day's first
  // trade past the halt on, with no other day between and no restart.
  lemma {:induction false} LossIsNetOfDay(u: Setup, steps: seq<RunStep>, records: seq<Record>, kill: Kill, logs: Logs,
                                          desk: Desk, i: nat, k: nat, today: string)
    requires RunOf(u, steps, records, kill, logs, desk) && i < k <= |records|
    requires steps[i].Opportune? && steps[i].today == today && records[i].deskBefore.date != today
    requires Finished(records[i].trade)
    requires forall m :: i < m < k ==>
               if steps[m].Opportune? then steps[m].today == today else !steps[m].event.Restarting?
    ensures records[k - 1].deskAfter.date == today && records[k - 1].deskAfter.loss == -NetOf(records, i, k)
  {
    hide Fits, Finished, NetOf;
    NetOfOne(records, i, k - 1);
    if k == i + 1 {
      assert Fits(u, steps[i], records[i]);
      NetOfOne(records, i, i);
      FirstOfDay(u, steps[i], records[i]);
    } else {
      LossIsNetOfDay(u, steps, records, kill, logs, desk, i, k - 1, today);
      StartsWhereEnded(u, steps, records, kill, logs, desk, k - 1);
      LaterThatDay(u, steps[k - 1], records[k - 1]);
    }
  }

  lemma NetOfOne(records: seq<Record>, i: nat, k: nat)
    requires i <= k < |records|
    ensures NetOf(records, i, i) == 0.0
    ensures var t := records[k].trade;
        NetOf(records, i, k + 1) == NetOf(records, i, k) + if t.Executed? then t.result.net else 0.0
  {
  }

  lemma FirstOfDay(u: Setup, step: RunStep, r: Record)
    requires Fits(u, step, r) && step.Opportune? && Finished(r.trade) && r.deskBefore.date != step.today
    ensures r.deskAfter.date == step.today
    ensures r.deskAfter.loss == -(if r.trade.Executed? then r.trade.result.net else 0.0)
  {
    hide FiredAs, TradeOf, HaltGrows, LogsGrow, Contained, OverReported, OverLogged, PreFlight, Cleared;
  }

  lemma LaterThatDay(u: Setup, step: RunStep, r: Record)
    requires Fits(u, step, r)
    requires if step.Opportune? then step.today == r.deskBefore.date else !step.event.Restarting?
    ensures r.deskAfter.date == r.deskBefore.date
    ensures r.deskAfter.loss == r.deskBefore.loss - (if r.trade.Executed? then r.trade.result.net else 0.0)
  {
    hide FiredAs, TradeOf, HaltGrows, LogsGrow, Contained, OverReported, OverLogged, PreFlight, Cleared;
  }

  lemma LimitStopsStep(u: Setup, step: RunStep, r: Record)
    requires Fits(u, step, r) && r.deskBefore.loss >= u.settings.maxDailyLoss
    requires if step.Opportune? then step.today == r.deskBefore.date else !step.event.Restarting?
    ensures r.deskAfter == r.deskBefore && !Posted(r) && !Finished(r.trade)
  {
    hide FiredAs, TradeOf, HaltGrows, LogsGrow, Contained, OverReported, OverLogged, PreFlight;
  }

  class ArbitrageExecutor {
    const engine: ExecutionEngine
    const settings: Settings
    var dailyLoss: real
    var resetDate: string
    var inFlight: int
    var trades: seq<Trade>

    ghost predicate Valid() {
      engine.Valid()
    }

    function View(): Desk
      reads this
    {
      Desk(dailyLoss, resetDate, inFlight)
    }

    constructor (engine: ExecutionEngine, settings: Settings)
      requires engine.Valid()
      ensures Valid() && this.engine == engine && this.settings == settings
      ensures View() == Desk(0.0, "", 0) && trades == []
    {
      this.engine, this.settings := engine, settings;
      dailyLoss, resetDate, inFlight, trades := 0.0, "", 0, [];
    }

    // One leg, whose one reading of the halt was `halted`. A leg that the execution timeout
    // cancels reports nothing filled.
    method Leg(halted: bool, req: Request, key: string) returns (out: Outcome, ghost call: Call)
      requires Valid() && req.size > 0.0 && (halted ==> Active(engine.killSwitch.View()))
      modifies engine.killSwitch, engine.clock, engine.gateways.Values, engine.breakers.Values
      ensures out.filled >= 0.0
      ensures call.req == req && call.out == out && Ran(call, key, engine.maxRetries)
      ensures engine.Logs() == Appended(old(engine.Logs()), call)
      ensures halted && !req.riskReducing ==>
        && out.filled == 0.0 && call.posts == []
        && engine.killSwitch.View() == old(engine.killSwitch.View()) && engine.Logs() == old(engine.Logs())
      ensures !halted && req.venue in engine.gateways ==> call.posts != [] || engine.killSwitch.tripped
      ensures HaltGrows(old(engine.killSwitch.View()), engine.killSwitch.View())
    {
      hide WellFormed, Orderly, TotalFilled, EndsWith, Heeds, Answered, B.Run;
      ghost var posts, heard;
      out, posts, heard := engine.Proceed(halted, req, key);
      var cancelled: bool := *;
      if cancelled { out := FailedOutcome(req.size); }
      call := Call(req, posts, out, cancelled);
      AppendedIs(old(engine.Logs()), engine.Logs(), call);
      AppendedGrows(old(engine.Logs()), call);
    }

    // Both legs at once. They share nothing but the halt, which each reads when it starts
    // and may trip; so they run in either order, the second on an early or a late reading.
    method BothLegs(buyReq: Request, buyKey: string, sellReq: Request, sellKey: string)
      returns (buy: Outcome, sell: Outcome, ghost bought: Call, ghost sold: Call)
      requires Valid() && buyReq.size > 0.0 && sellReq.size > 0.0 && buyReq.venue != sellReq.venue
      requires !buyReq.riskReducing && !sellReq.riskReducing
      modifies engine.killSwitch, engine.clock, engine.gateways.Values, engine.breakers.Values
      ensures buy.filled >= 0.0 && sell.filled >= 0.0
      ensures bought.req == buyReq && bought.out == buy && Ran(bought, buyKey, engine.maxRetries)
      ensures sold.req == sellReq && sold.out == sell && Ran(sold, sellKey, engine.maxRetries)
      ensures engine.Logs() == Appended(Appended(old(engine.Logs()), bought), sold)
      ensures old(Active(engine.killSwitch.View())) ==>
        && buy.filled == sell.filled == 0.0
        && engine.killSwitch.View() == old(engine.killSwitch.View()) && engine.Logs() == old(engine.Logs())
      ensures !old(Active(engine.killSwitch.View())) && engine.gateways.Keys == {Kalshi, Polymarket} ==>
        engine.Logs() != old(engine.Logs()) || engine.killSwitch.tripped
      ensures HaltGrows(old(engine.killSwitch.View()), engine.killSwitch.View())
    {
      hide Ran, Appended, Active;
      var first, why := engine.killSwitch.IsActive();
      var buyLeads: bool, late: bool := *, *;
      if buyLeads { buy, bought := Leg(first, buyReq, buyKey); } else { sell, sold := Leg(first, sellReq, sellKey); }
      var second := first;
      if late { second, why := engine.killSwitch.IsActive(); }
      if buyLeads { sell, sold := Leg(second, sellReq, sellKey); } else { buy, bought := Leg(second, buyReq, buyKey); }
      AppendedEither(old(engine.Logs()), bought, sold);
      AppendedShows(old(engine.Logs()), bought, sold);
    }

    // Unwinds the imbalance, confirms it, and trips the halt if too much is left.
    method Hedge(buyReq: Request, buy: Outcome, sellReq: Request, sell: Outcome, ghost opp: Opportunity)
      returns (h: Hedging, ghost unwind: Option<Call>)
      requires Valid() && buyReq.opportunity == sellReq.opportunity == opp.id
      modifies engine.killSwitch, engine.clock, engine.gateways.Values, engine.breakers.Values
      ensures h == HedgeOf(buy.filled - sell.filled, if unwind.Some? then unwind.value.out.filled else 0.0)
      ensures unwind.Some? <==> Abs(buy.filled - sell.filled) >= 1.0
      ensures unwind.Some? ==> Unwinds(unwind.value, buyReq, buy, sellReq, sell, opp, engine.maxRetries)
      ensures engine.Logs() == AfterUnwind(old(engine.Logs()), unwind)
      ensures h.Unwound? && h.trips ==> engine.killSwitch.tripped
      ensures !(h.Unwound? && h.trips) ==> engine.killSwitch.View() == old(engine.killSwitch.View())
      ensures HaltGrows(old(engine.killSwitch.View()), engine.killSwitch.View())
      // The unwind goes through whatever the halt says.
      ensures unwind.Some? && unwind.value.req.venue in engine.gateways ==> unwind.value.posts != []
      // An over-reported unwind is one a gateway over-reported.
      ensures unwind.Some? && OverUnwound(Abs(buy.filled - sell.filled), unwind.value.out.filled) ==>
        OverLogged(old(engine.Logs()), engine.Logs())
    {
      hide OverLogged, OverUnwound, TotalFilled, WellFormed, LogsGrow, UnwindRequest, Orderly, EndsWith, Heeds, B.Run;
      hide Answered, Ran, Appended, Active;
      var imbalance := buy.filled - sell.filled;
      var qty := Abs(imbalance);
      HaltSame(engine.killSwitch.View());
      if qty <= EPS { return Balanced, None; }
      if qty < 1.0 { return Dust(qty), None; }
      var overReq, overOut := if imbalance > 0.0 then buyReq else sellReq, if imbalance > 0.0 then buy else sell;
      var request := UnwindRequest(overReq, overOut, qty);
      UnwindReverses(overReq, overOut, qty);
      ghost var posts, heard;
      var out;
      out, posts, heard := engine.Execute(request, overReq.opportunity + ":hedge");
      unwind := Some(Call(request, posts, out, false));
      UnwindLogged(old(engine.Logs()), engine.Logs(), unwind.value, overReq.opportunity + ":hedge", engine.maxRetries);
      h := Confirm(qty, out.filled, overReq.opportunity);
    }

    // Trips the halt when an unwind left more than the tolerance.
    method Confirm(qty: real, unwound: real, id: string) returns (h: Hedging)
      requires Valid()
      modifies engine.killSwitch
      ensures h == Unwound(qty - unwound, qty - unwound > Tolerance(qty))
      ensures if h.trips then engine.killSwitch.tripped && engine.killSwitch.reason == Some("unwind_failed:" + id)
              else engine.killSwitch.View() == old(engine.killSwitch.View())
      ensures HaltGrows(old(engine.killSwitch.View()), engine.killSwitch.View())
      ensures engine.Logs() == old(engine.Logs())
    {
      var residual := qty - unwound;
      if residual > Tolerance(qty) { engine.killSwitch.TripNow("unwind_failed:" + id); }
      h := Unwound(residual, residual > Tolerance(qty));
    }

    method RunArbitrage(opp: Opportunity, today: string, gates: Gates) returns (t: Trade, ghost fired: Option<Fired>)
      requires Valid()
      modifies this, engine.killSwitch, engine.clock, engine.gateways.Values, engine.breakers.Values
      ensures trades == old(trades) + [t] && inFlight == old(inFlight)
      // The legs go out exactly when no halt, no gate and no cap is in the way.
      ensures fired.Some? <==> Goes(settings, old(engine.killSwitch.View()), old(View()), opp, today, gates)
      ensures fired.None? ==>
        && t == SkippedBy(settings, old(engine.killSwitch.View()), old(View()), opp, today, gates)
        && engine.Logs() == old(engine.Logs())
        && engine.killSwitch.View() == old(engine.killSwitch.View())
      ensures fired.Some? ==>
        && FiredAs(settings, engine.maxRetries, opp, fired.value, old(engine.Logs()), engine.Logs())
        && t == TradeOf(settings, opp, fired.value)
      ensures fired.Some? && !old(Active(engine.killSwitch.View())) && engine.gateways.Keys == {Kalshi, Polymarket} ==>
        engine.Logs() != old(engine.Logs()) || engine.killSwitch.tripped
      // Contained, or the halt is up, or a gateway over-reported the unwind.
      ensures settings.hedgeEnabled ==>
        Contained(t) || engine.killSwitch.tripped || (OverReported(t) && OverLogged(old(engine.Logs()), engine.Logs()))
      ensures HaltGrows(old(engine.killSwitch.View()), engine.killSwitch.View())
      ensures LogsGrow(old(engine.Logs()), engine.Logs())
      // Nothing is posted for a trade that starts under a halt, in paper mode either.
      ensures old(Active(engine.killSwitch.View())) ==>
        && !Finished(t) && engine.Logs() == old(engine.Logs())
        && engine.killSwitch.View() == old(engine.killSwitch.View())
      // The running loss takes exactly the trade's net, after the day's roll-over.
      ensures View() == DeskAfter(settings, old(View()), old(engine.killSwitch.View()), today, t)
    {
      hide OverLogged, OverReported, Contained, FiredAs, TradeOf, HaltGrows, LogsGrow, Active, Why, Cleared,
        CappedVolume;
      hide Finished, RefusedAtHalt;
      if !RefusedAtHalt(settings, engine.killSwitch.View()) { MaybeResetDailyLoss(today); }
      t, fired := Attempt(opp, gates);
      Tally(t);
    }

    method Tally(t: Trade)
      modifies this`dailyLoss, this`trades
      ensures trades == old(trades) + [t]
      ensures dailyLoss == old(dailyLoss) - (if t.Executed? then t.result.net else 0.0)
      ensures engine.Logs() == old(engine.Logs()) && engine.killSwitch.View() == old(engine.killSwitch.View())
    {
      var loss := if t.Executed? then t.result.net else 0.0;
      dailyLoss, trades := dailyLoss - loss, trades + [t];
    }

    method MaybeResetDailyLoss(today: string)
      modifies this`dailyLoss, this`resetDate
      ensures View() == Rolled(old(View()), today)
    {
      if resetDate != today { dailyLoss, resetDate := 0.0, today; }
    }

    // Pre-flight, then the legs if there are any.
    method Attempt(opp: Opportunity, gates: Gates) returns (t: Trade, ghost fired: Option<Fired>)
      requires Valid()
      modifies engine.killSwitch, engine.clock, engine.gateways.Values, engine.breakers.Values
      ensures fired.Some? <==>
        && !RefusedAtHalt(settings, old(engine.killSwitch.View()))
        && Cleared(settings, dailyLoss, inFlight, opp, gates) && CappedVolume(settings, opp) >= 1.0
      ensures fired.None? ==>
        && t == Skipped(PreFlight(settings, old(engine.killSwitch.View()), dailyLoss, inFlight, opp, gates))
        && engine.Logs() == old(engine.Logs()) && engine.killSwitch.View() == old(engine.killSwitch.View())
      ensures fired.Some? ==>
        && FiredAs(settings, engine.maxRetries, opp, fired.value, old(engine.Logs()), engine.Logs())
        && t == TradeOf(settings, opp, fired.value)
      ensures fired.Some? && !old(Active(engine.killSwitch.View())) && engine.gateways.Keys == {Kalshi, Polymarket} ==>
        engine.Logs() != old(engine.Logs()) || engine.killSwitch.tripped
      ensures settings.hedgeEnabled ==>
        Contained(t) || engine.killSwitch.tripped || (OverReported(t) && OverLogged(old(engine.Logs()), engine.Logs()))
      ensures HaltGrows(old(engine.killSwitch.View()), engine.killSwitch.View())
      ensures LogsGrow(old(engine.Logs()), engine.Logs())
      ensures old(Active(engine.killSwitch.View())) ==>
        && !Finished(t) && engine.Logs() == old(engine.Logs())
        && engine.killSwitch.View() == old(engine.killSwitch.View())
    {
      hide OverLogged, OverReported, Contained, FiredAs, TradeOf, BuildLegs, HaltGrows, LogsGrow, PreFlight, Active,
        Cleared;
      hide RefusedAtHalt, CappedVolume, Finished;
      HaltSame(engine.killSwitch.View());
      LogsSame(engine.Logs());
      PreFlightPassesIff(settings, engine.killSwitch.View(), dailyLoss, inFlight, opp, gates);
      LegsMatch(settings, opp);
      var rejection := PreFlight(settings, engine.killSwitch.View(), dailyLoss, inFlight, opp, gates);
      SkippedIsContained(rejection);
      if rejection.Some? { return Skipped(rejection), None; }
      var legs := BuildLegs(settings, opp);
      if legs.None? { return Skipped(None), None; }
      ghost var calls;
      t, calls := FireAndHedge(opp, legs.value.0, legs.value.1);
      fired := Some(calls);
    }

    method FireAndHedge(opp: Opportunity, buyReq: Request, sellReq: Request) returns (t: Trade, ghost fired: Fired)
      requires Valid() && BuildLegs(settings, opp) == Some((buyReq, sellReq))
      modifies engine.killSwitch, engine.clock, engine.gateways.Values, engine.breakers.Values
      ensures FiredAs(settings, engine.maxRetries, opp, fired, old(engine.Logs()), engine.Logs())
      ensures t == TradeOf(settings, opp, fired)
      ensures !old(Active(engine.killSwitch.View())) && engine.gateways.Keys == {Kalshi, Polymarket} ==>
        engine.Logs() != old(engine.Logs()) || engine.killSwitch.tripped
      ensures settings.hedgeEnabled ==>
        Contained(t) || engine.killSwitch.tripped || (OverReported(t) && OverLogged(old(engine.Logs()), engine.Logs()))
      ensures HaltGrows(old(engine.killSwitch.View()), engine.killSwitch.View())
      ensures LogsGrow(old(engine.Logs()), engine.Logs())
      ensures old(Active(engine.killSwitch.View())) ==>
        && !Finished(t) && engine.Logs() == old(engine.Logs())
        && engine.killSwitch.View() == old(engine.killSwitch.View())
    {
      hide OverLogged, OverUnwound, HedgeOf, SmallExposure, LogsGrow, CappedVolume, BuildLegs, Ran, Unwinds;
      hide Appended, Active, AfterUnwind;
      LegsMatch(settings, opp);
      ghost var bought, sold;
      var buy, sell;
      buy, sell, bought, sold := BothLegs(buyReq, opp.id + ":buy", sellReq, opp.id + ":sell");
      var matched, imbalance := Min(buy.filled, sell.filled), buy.filled - sell.filled;
      ghost var mid := engine.Logs();
      ghost var unwind: Option<Call> := None;
      NoUnwind(mid, buy.filled - sell.filled);
      var hedging := Balanced;
      if Abs(imbalance) > EPS && settings.hedgeEnabled {
        hedging, unwind := Hedge(buyReq, buy, sellReq, sell, opp);
      }
      fired := Fired(bought, sold, unwind);
      LogsOfTrade(old(engine.Logs()), fired, mid);
      if matched > EPS {
        t := Executed(ResultOf(Complementary(opp), buy, sell, matched), imbalance, hedging);
      } else if Abs(imbalance) > EPS {
        t := HedgedOnly(imbalance, hedging);
      } else {
        t := NoFill;
      }
      if settings.hedgeEnabled { TradeEndsAs(settings, opp, fired, old(engine.Logs()), engine.Logs()); }
    }

    // A new process over the same gateways: fresh breakers, no memory of losses.
    method Restarted(now: real)
      requires Valid()
      modifies this, engine.killSwitch, engine.breakers.Values
      ensures engine.killSwitch.View() == Restart(old(engine.killSwitch.View()))
      ensures View() == Desk(0.0, "", 0) && trades == old(trades)
      ensures forall v :: v in engine.breakers ==> engine.breakers[v].View() == B.Fresh(now)
    {
      engine.killSwitch.Apply(Restarting);
      engine.breakers[Kalshi].Renew(now);
      engine.breakers[Polymarket].Renew(now);
      dailyLoss, resetDate, inFlight := 0.0, "", 0;
    }

    method TakeStep(step: RunStep) returns (ghost record: Record)
      requires Valid() && settings.hedgeEnabled
      modifies this, engine.killSwitch, engine.clock, engine.gateways.Values, engine.breakers.Values
      ensures Fits(Setup(settings, engine.maxRetries), step, record)
      ensures record.deskBefore == old(View()) && record.deskAfter == View()
      ensures record.before == old(engine.killSwitch.View()) && record.after == engine.killSwitch.View()
      ensures record.logsBefore == old(engine.Logs()) && record.logsAfter == engine.Logs()
      ensures trades == old(trades) + (if step.Opportune? then [record.trade] else [])
    {
      hide OverLogged, OverReported, Contained, LogsGrow, HaltGrows, FiredAs, TradeOf, Goes, DeskAfter, Finished,
        SkippedBy;
      var trade := Skipped(None);
      ghost var fired: Option<Fired> := None;
      match step {
        case Opportune(opp, today, gates) => trade, fired := RunArbitrage(opp, today, gates);
        case Operator(e, now) => if e.Restarting? { Restarted(now); } else { engine.killSwitch.Apply(e); }
      }
      record := Record(old(engine.killSwitch.View()), engine.killSwitch.View(),
                       old(engine.Logs()), engine.Logs(), old(View()), View(), trade, fired);
    }

    // A whole run: opportunities, each on its own day with its own gate answers, among
    // anything an operator, a restart or the file system does to the halt.
    method RunAll(steps: seq<RunStep>) returns (ghost records: seq<Record>)
      requires Valid() && settings.hedgeEnabled
      modifies this, engine.killSwitch, engine.clock, engine.gateways.Values, engine.breakers.Values
      ensures RunOf(Setup(settings, engine.maxRetries), steps, records, old(engine.killSwitch.View()),
                    old(engine.Logs()), old(View()))
      ensures engine.killSwitch.View() == EndKill(records, old(engine.killSwitch.View()))
      ensures engine.Logs() == EndLogs(records, old(engine.Logs())) && View() == EndDesk(records, old(View()))
      ensures trades == old(trades) + TradesOf(steps, records)
    {
      hide Fits, RunOf, TradesOf;
      NoSteps(Setup(settings, engine.maxRetries), engine.killSwitch.View(), engine.Logs(), View());
      records := [];
      assert steps[..0] == [];
      for i := 0 to |steps|
        invariant |records| == i && RunOf(Setup(settings, engine.maxRetries), steps[..i], records,
                                             old(engine.killSwitch.View()), old(engine.Logs()), old(View()))
        invariant engine.killSwitch.View() == EndKill(records, old(engine.killSwitch.View()))
        invariant engine.Logs() == EndLogs(records, old(engine.Logs())) && View() == EndDesk(records, old(View()))
        invariant trades == old(trades) + TradesOf(steps[..i], records)
      {
        ghost var record := TakeStep(steps[i]);
        RunGrows(Setup(settings, engine.maxRetries), steps, i, records, record, old(engine.killSwitch.View()),
                 old(engine.Logs()), old(View()));
        TradesGrow(steps, i, records, record);
        records := records + [record];
      }
      assert steps[..|steps|] == steps;
    }
  }
}
