/** The hedge of an imbalance between two legs: what is unwound, at what price, and what
    the unwind's report comes to. */
module Hedges {
  import opened VenueFees
  import opened Ladders
  import opened Wrappers
  import opened OrderTypes
  import VenueGateway

  const EPS := 0.000001
  const HEDGE_TOLERANCE := 0.01

  // -------------------------------------------------------------- hedge arithmetic

  // The unfilled part of an unwind that still counts as hedged.
  function Tolerance(qty: real): real { Max(EPS, qty * HEDGE_TOLERANCE) }

  datatype Hedging =
    | Balanced
    | Dust(residual: real)                        // under one contract: recorded, not unwound
    | Unwound(residual: real, trips: bool)

  function HedgeOf(imbalance: real, unwindFilled: real): Hedging {
    var qty := Abs(imbalance);
    if qty <= EPS then Balanced
    else if qty < 1.0 then Dust(qty)
    else Unwound(qty - unwindFilled, qty - unwindFilled > Tolerance(qty))
  }

  // What hedging an imbalance can come to, whatever the unwind reports.
  ghost predicate IsHedge(h: Hedging, imbalance: real) { exists unwound :: h == HedgeOf(imbalance, unwound) }

  // Net exposure a finished trade leaves, as reported; negative when the unwind overshot.
  function Exposure(h: Hedging): real {
    match h
    case Balanced => 0.0
    case Dust(residual) => residual
    case Unwound(residual, _) => residual
  }

  // Small on either side: next to nothing, under a contract, or within the tolerance.
  predicate SmallExposure(imbalance: real, exposure: real) {
    || Abs(exposure) <= EPS
    || Abs(exposure) < 1.0
    || Abs(exposure) <= Abs(imbalance) * HEDGE_TOLERANCE
  }

  // An unwind that reports a contract more than it was for, and more than the tolerance.
  predicate OverUnwound(qty: real, unwindFilled: real) {
    unwindFilled - qty >= 1.0 && unwindFilled - qty > qty * HEDGE_TOLERANCE
  }

  // A hedge leaves a small exposure, or trips the halt, or its unwind over-reported; the
  // last is exactly the case the halt does not see.
  lemma HedgeContains(imbalance: real, unwindFilled: real)
    ensures var h, qty := HedgeOf(imbalance, unwindFilled), Abs(imbalance);
            !SmallExposure(imbalance, Exposure(h)) && !(h.Unwound? && h.trips)
            <==> qty >= 1.0 && OverUnwound(qty, unwindFilled)
  {
  }

  // ------------------------------------------------------------------ the unwind

  const PRICE_CONCESSION := 0.02

  // The opposite of the over-filled leg, priced to cross, never held up by a halt.
  function UnwindRequest(req: Request, out: Outcome, qty: real): Request {
    var opposite := if req.action == Buy then Sell else Buy;
    var crossed := if opposite == Sell then FillPrice(req, out) - PRICE_CONCESSION
      else FillPrice(req, out) + PRICE_CONCESSION;
    Request(req.venue, opposite, qty, Min(0.99, Max(0.01, crossed)), req.instrument, req.outcomeSide,
            if req.venue == Polymarket then FOK else IOC, true, req.opportunity)
  }

  function FillPrice(req: Request, out: Outcome): real { if out.avgPrice != 0.0 then out.avgPrice else req.limitPrice }

  // An unwind takes the other side of the same instrument for exactly the excess, and
  // crosses by exactly two cents of the fill price, or of the limit when no price is
  // reported, within the tradeable band.
  lemma UnwindReverses(req: Request, out: Outcome, qty: real)
    ensures var u := UnwindRequest(req, out, qty);
            && u.venue == req.venue && u.instrument == req.instrument && u.outcomeSide == req.outcomeSide
            && u.action != req.action && u.size == qty && u.riskReducing
            && 0.01 <= u.limitPrice <= 0.99
            && u.tif == (if req.venue == Polymarket then FOK else IOC) && u.opportunity == req.opportunity
            && (var limit := (if out.avgPrice != 0.0 then out.avgPrice else req.limitPrice)
                             + if u.action == Sell then -0.02 else 0.02;
                if limit < 0.01 then u.limitPrice == 0.01
                else if limit > 0.99 then u.limitPrice == 0.99 else u.limitPrice == limit)
            && (out.avgPrice != 0.0 && 0.01 <= out.avgPrice <= 0.99 ==>
                  if u.action == Sell then u.limitPrice <= out.avgPrice else u.limitPrice >= out.avgPrice)
  {
  }

  // The whole cents sent to Kalshi still cross: they give up between a cent and a half and
  // two and a half of the fill price, or stand at an end of the tradeable band.
  lemma UnwindCrossesInCents(req: Request, out: Outcome, qty: real)
    ensures var u := UnwindRequest(req, out, qty);
            var cents := VenueGateway.KalshiCents(u.limitPrice);
            var given := FillPrice(req, out) - cents as real / 100.0;
            if u.action == Sell then (cents == 1 || given >= 0.015) && (cents == 99 || given <= 0.025)
            else (cents == 99 || given <= -0.015) && (cents == 1 || given >= -0.025)
  {
    hide RoundHalfEven;
    var limit := UnwindRequest(req, out, qty).limitPrice;
    RoundHalfEvenNear(limit * 100.0);
    RoundHalfEvenAtEnds();
  }

  lemma RoundHalfEvenAtEnds()
    ensures RoundHalfEven(0.01 * 100.0) == 1 && RoundHalfEven(0.99 * 100.0) == 99
  {
  }

  // Kalshi takes whole contracts: an unwind order that fills in full leaves the fraction of
  // the imbalance, and trips the halt exactly when 99 times that fraction exceeds the whole
  // part; so never for a whole imbalance, nor from 99 contracts on.
  lemma KalshiUnwindTripsIff(req: Request, out: Outcome, imbalance: real, order: VenueGateway.KOrder)
    requires req.venue == Kalshi && Abs(imbalance) >= 1.0
    requires order.countFilled == Abs(imbalance).Floor as real
    ensures var u := UnwindRequest(req, out, Abs(imbalance));
            var p := VenueGateway.KalshiPlace(true, u, VenueGateway.KTerminal(order));
            var h := HedgeOf(imbalance, p.filled);
            var whole := Abs(imbalance).Floor as real;
            && p.status == Filled && h.Unwound?
            && (h.trips <==> 99.0 * (Abs(imbalance) - whole) > whole)
            && (h.trips ==> Abs(imbalance) < 99.0)
  {
  }

  // Five contracts against 2.3 shares: the unwind of 2.7 fills in full and halts everything.
  lemma FractionalUnwindTrips(req: Request, buy: Outcome, sell: Outcome, order: VenueGateway.KOrder)
    requires req.venue == Kalshi && buy.filled == 5.0 && sell.filled == 2.3 && order.countFilled == 2.0
    ensures var u := UnwindRequest(req, buy, buy.filled - sell.filled);
            var p := VenueGateway.KalshiPlace(true, u, VenueGateway.KTerminal(order));
            p.status == Filled && HedgeOf(buy.filled - sell.filled, p.filled) == Unwound(0.7, true)
  {
    assert (2.7 as real).Floor == 2;
  }

  // A pair that filled in full never halts over cent rounding: Kalshi fills n whole
  // contracts, a Polymarket buy reports only success, and what differs is dust.
  lemma FullPairIsDust(n: int, price: real, kReq: Request, pReq: Request, order: VenueGateway.KOrder,
                       orderId: string, fee: VenueGateway.FeeAnswer)
    requires n >= 1 && price >= 0.01
    requires kReq.venue == Kalshi && kReq.size == n as real
    requires pReq.venue == Polymarket && pReq.size == n as real && pReq.limitPrice == price
    requires VenueGateway.Marketable(pReq) && order.countFilled == n as real
    ensures var k := VenueGateway.KalshiPlace(true, kReq, VenueGateway.KTerminal(order));
            var bare := VenueGateway.FillBody(None, VenueGateway.Missing, None, None, true);
            var p := VenueGateway.PmPlace(true, pReq, VenueGateway.PmAccepted(orderId, bare), fee);
            && k.Done() && (p.Returned? <==> fee.Rate?)
            && (p.Returned? ==> p.outcome.Done() && forall h :: IsHedge(h, k.filled - p.outcome.filled) ==> !h.Unwound?)
  {
    hide VenueGateway.PmFees, VenueGateway.DollarsSent;
    VenueGateway.CentRoundingDust(pReq, fee, orderId);
  }

  // -------------------------------------------------------- which answers over-report

  // An answer that claims no more than the unwind order never makes it over-report.
  lemma ModestUnwindContained(req: Request, out: Outcome, imbalance: real, fee: VenueGateway.FeeAnswer,
                              kalshi: VenueGateway.KAnswer, polymarket: VenueGateway.PmAnswer)
    requires Abs(imbalance) >= 1.0
    ensures var u := UnwindRequest(req, out, Abs(imbalance));
            && (VenueGateway.FilledBy(kalshi) <= u.size ==>
                  !OverUnwound(Abs(imbalance), VenueGateway.KalshiPlace(true, u, kalshi).filled))
            && (VenueGateway.Modest(u, polymarket) ==>
                  var r := VenueGateway.PmPlace(true, u, polymarket, fee);
                  r.Returned? ==> !OverUnwound(Abs(imbalance), r.outcome.filled))
  {
    hide VenueGateway.PmPlace, VenueGateway.Modest;
    var u := UnwindRequest(req, out, Abs(imbalance));
    if VenueGateway.Modest(u, polymarket) { VenueGateway.ModestReport(true, u, polymarket, fee); }
  }

  // Five shares too many, sold off with an answer that never came, and five hundred sold
  // earlier: the trade is left 495 short, and neither small nor halted.
  lemma OverReportedUnwind(req: Request, out: Outcome, now: real, bps: int)
    requires req.venue == Polymarket && req.action == Buy
    ensures var u := UnwindRequest(req, out, 5.0);
            var earlier := VenueGateway.VenueTrade(u.instrument, Some(Sell), Some(now), Some(500.0), Some(0.5), None);
            var r := VenueGateway.PmPlace(true, u, VenueGateway.PmUnknown([earlier], now), VenueGateway.Rate(bps));
            && r.Returned? && r.outcome.filled == 500.0
            && var h := HedgeOf(5.0, r.outcome.filled);
               h == Unwound(-495.0, false) && !SmallExposure(5.0, Exposure(h))
  {
    hide VenueGateway.PmFees;
    var u := UnwindRequest(req, out, 5.0);
    var earlier := VenueGateway.VenueTrade(u.instrument, Some(Sell), Some(now), Some(500.0), Some(0.5), None);
    assert VenueGateway.RecentSize([earlier], u, now - VenueGateway.RECENT_WINDOW) == 500.0;
  }
}
