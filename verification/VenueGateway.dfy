/** The venue gateways: how one placement's raw venue answer becomes an outcome.

    A placement is a function of what the venue answered; the answers themselves are
    arbitrary. Polymarket has no server-side deduplication, so an answer that leaves
    the order's fate unknown is reconciled against recent trades and never retried. */
module VenueGateway {
  import opened VenueFees
  import opened Wrappers
  import opened OrderTypes
  import Ladders

  // ------------------------------------------------------------------- Kalshi

  datatype KOrder = KOrder(countFilled: real, averageCents: Option<real>, orderId: string, fillId: Option<string>)

  datatype KAnswer =
    | KError                                  // the order endpoint returned an error
    | KTerminal(order: KOrder)                // executed at once, or polled to a terminal state
    | KCanceled(order: KOrder)                // polling timed out, cancelled, re-fetched
    | KUnverified(orderId: string)            // cancelled, and the re-fetch failed too

  // Filled from `enough` on, partly filled above nothing, failed otherwise.
  function FillStatus(filled: real, enough: real): Status {
    if filled >= enough then Filled else if filled > 0.0 then PartlyFilled else Failed
  }

  function KalshiOutcome(req: Request, order: KOrder): Outcome {
    var filled := order.countFilled;
    var avg := if order.averageCents.Some? then order.averageCents.value / 100.0 else req.limitPrice;
    var fees := if filled > 0.0 then KalshiTakerFee(avg, filled) else 0.0;
    var status := FillStatus(filled, Truncated(req.size) as real);
    Outcome(status, req.size, filled, avg, fees, Some(order.orderId), order.fillId, true)
  }

  function KalshiPlace(armed: bool, req: Request, answer: KAnswer): Outcome {
    if !armed || Truncated(req.size) <= 0 then FailedOutcome(req.size)
    else
      match answer
      case KError => FailedOutcome(req.size)
      case KTerminal(order) => KalshiOutcome(req, order)
      case KCanceled(order) => KalshiOutcome(req, order)
      case KUnverified(id) => FailedOutcome(req.size).(orderId := Some(id), retryable := false)
  }

  // The limit in whole cents, clamped to a tradeable price.
  function KalshiCents(limitPrice: real): (c: int)
    ensures 1 <= c <= 99
  {
    var cents := RoundHalfEven(limitPrice * 100.0);
    if cents < 1 then 1 else if cents > 99 then 99 else cents
  }

  // The nearest whole cent, or the end of the tradeable range beyond it.
  lemma KalshiCentsNearest(limitPrice: real)
    ensures var c, exact := KalshiCents(limitPrice), limitPrice * 100.0;
            if exact < 0.5 then c == 1
            else if exact > 99.5 then c == 99 else -0.5 <= c as real - exact <= 0.5
  {
    hide RoundHalfEven;
    RoundHalfEvenNear(limitPrice * 100.0);
  }

  function FilledBy(answer: KAnswer): real {
    match answer
    case KTerminal(order) => order.countFilled
    case KCanceled(order) => order.countFilled
    case _ => 0.0
  }

  // Kalshi reports non-negative counts: then every placement is well formed.
  lemma KalshiWellFormed(armed: bool, req: Request, answer: KAnswer)
    requires FilledBy(answer) >= 0.0
    ensures WellFormed(KalshiPlace(armed, req, answer))
  {
  }

  // What a terminal order of at least one contract is reported as: the venue's own count,
  // its average in cents or else the limit, the taker fee of that fill, and filled from the
  // whole contracts of the order on.
  lemma KalshiReports(req: Request, order: KOrder)
    requires req.size >= 1.0
    ensures KalshiPlace(true, req, KCanceled(order)) == KalshiPlace(true, req, KTerminal(order))
    ensures var o := KalshiPlace(true, req, KTerminal(order));
            && o.requested == req.size && o.filled == order.countFilled && o.retryable
            && o.orderId == Some(order.orderId) && o.fillId == order.fillId
            && (if order.averageCents.Some? then o.avgPrice * 100.0 == order.averageCents.value
                else o.avgPrice == req.limitPrice)
            && (o.status == Filled <==> order.countFilled >= req.size.Floor as real)
            && (order.countFilled <= 0.0 ==> o.fees == 0.0)
            && (order.countFilled > 0.0 && 0.0 <= o.avgPrice <= 1.0 ==>
                  var cents := o.fees * 100.0;
                  && cents == cents.Floor as real
                  && cents - 1.0 < 7.0 * Curve(o.avgPrice, o.filled) <= cents)
  {
    hide KalshiTakerFee;
    var o := KalshiPlace(true, req, KTerminal(order));
    if order.countFilled > 0.0 && 0.0 <= o.avgPrice <= 1.0 { KalshiSchedule(0, o.avgPrice, o.filled); }
  }

  // Anything else fills nothing; only an order that may have filled unseen is not to be
  // posted again.
  lemma KalshiRefusals(armed: bool, req: Request, answer: KAnswer)
    requires !armed || req.size < 1.0 || answer.KError? || answer.KUnverified?
    ensures var o := KalshiPlace(armed, req, answer);
            && o.status == Failed && o.filled == 0.0 && o.fees == 0.0 && o.requested == req.size
            && (!o.retryable <==> armed && req.size >= 1.0 && answer.KUnverified?)
            && (armed && req.size >= 1.0 && answer.KUnverified? ==> o.orderId == Some(answer.orderId))
  {
  }

  // --------------------------------------------------------------- Polymarket

  // The price field of an answer: missing, not a number, or a number.
  datatype PriceField = Missing | Unreadable | Number(value: real)

  // The fill fields a CLOB answer may carry, the sizes absent or unparsable as None.
  datatype FillBody = FillBody(matched: Option<real>, price: PriceField, taking: Option<real>,
                               making: Option<real>, success: bool)

  // One recent venue trade; the timestamp is None when missing or unparsable.
  datatype VenueTrade = VenueTrade(token: string, side: Option<Action>, time: Option<real>,
                                   size: Option<real>, price: Option<real>, orderId: Option<string>)

  datatype PmAnswer =
    | PmRejected                                            // a clean error
    | PmUnknown(recent: seq<VenueTrade>, now: real)         // timeout, dropped connection, no order id
    | PmAccepted(orderId: string, body: FillBody)

  const PM_FILLED_SHARE := 0.999
  const RECENT_WINDOW := 120.0

  predicate Marketable(req: Request) { (req.tif == FOK || req.tif == FAK) && req.action == Buy }

  // pUSD sent for a marketable buy, at two decimals.
  function DollarsSent(req: Request): real { ToCents(Notional(req)) }

  function Notional(req: Request): real { req.size * req.limitPrice }

  function ToCents(x: real): real { RoundHalfEven(x * 100.0) as real / 100.0 }

  // Shares and average price out of an answer; `dollars` when dollars were sent. None when
  // the price beside an explicit matched size is not a number: the conversion raises.
  function ParseFill(body: FillBody, req: Request, dollars: Option<real>): Option<(real, real)> {
    if body.matched.Some? then
      match body.price
      case Missing => Some((body.matched.value, req.limitPrice))
      case Unreadable => None
      case Number(price) => Some((body.matched.value, price))
    else if body.taking.Some? && body.making.Some? && req.action == Buy && body.taking.value > 0.0 then
      Some((body.taking.value, body.making.value / body.taking.value))
    else if body.taking.Some? && body.making.Some? && req.action == Sell && body.making.value > 0.0 then
      Some((body.making.value, body.taking.value / body.making.value))
    else if body.success then
      if req.action == Buy && dollars.Some? then
        var price := FallbackPrice(body, req);
        Some(if price > 0.0 then (dollars.value / price, price) else (0.0, req.limitPrice))
      else Some((req.size, req.limitPrice))
    else Some((0.0, req.limitPrice))
  }

  // In the bare-success fallback a missing, zero or unreadable price is the limit.
  function FallbackPrice(body: FillBody, req: Request): real {
    if body.price.Number? && body.price.value != 0.0 then body.price.value else req.limitPrice
  }

  // Does a recent trade look like this order's?
  predicate Matches(t: VenueTrade, req: Request, cutoff: real) {
    && t.token == req.instrument
    && (t.side.None? || t.side.value == req.action)
    && (t.time.None? || t.time.value >= cutoff)
    && t.size.Some? && t.price.Some? && t.size.value > 0.0
  }

  function SizeIf(t: VenueTrade, req: Request, cutoff: real): (s: real)
    ensures s >= 0.0
  {
    if Matches(t, req, cutoff) then t.size.value else 0.0
  }

  function NotionalIf(t: VenueTrade, req: Request, cutoff: real): real {
    if Matches(t, req, cutoff) then t.size.value * t.price.value else 0.0
  }

  function RecentSize(trades: seq<VenueTrade>, req: Request, cutoff: real): (s: real)
    ensures s >= 0.0
  {
    if trades == [] then 0.0 else SizeIf(trades[0], req, cutoff) + RecentSize(trades[1..], req, cutoff)
  }

  function RecentNotional(trades: seq<VenueTrade>, req: Request, cutoff: real): real {
    if trades == [] then 0.0 else NotionalIf(trades[0], req, cutoff) + RecentNotional(trades[1..], req, cutoff)
  }

  // The scan of recent trades after an ambiguous post.
  method FindRecentFill(trades: seq<VenueTrade>, req: Request, now: real) returns (filled: real, avg: real)
    ensures filled == RecentSize(trades, req, now - RECENT_WINDOW)
    ensures filled > 0.0 ==> avg * filled == RecentNotional(trades, req, now - RECENT_WINDOW)
    ensures filled == 0.0 ==> avg == req.limitPrice
  {
    hide RecentSize, RecentNotional;
    var cutoff := now - RECENT_WINDOW;
    filled := 0.0;
    var notional := 0.0;
    assert trades[0..] == trades;
    for i := 0 to |trades|
      invariant RecentSize(trades, req, cutoff) == filled + RecentSize(trades[i..], req, cutoff)
      invariant RecentNotional(trades, req, cutoff) == notional + RecentNotional(trades[i..], req, cutoff)
      invariant filled >= 0.0
    {
      var t := trades[i];
      ScanStep(trades, req, cutoff, i);
      if t.token != req.instrument { continue; }
      if t.side.Some? && t.side.value != req.action { continue; }
      if t.time.Some? && t.time.value < cutoff { continue; }
      if t.size.None? || t.price.None? { continue; }
      if t.size.value <= 0.0 { continue; }
      assert NotionalIf(t, req, cutoff) == t.size.value * t.price.value;
      filled := filled + t.size.value;
      notional := notional + t.size.value * t.price.value;
    }
    assert trades[|trades|..] == [];
    NothingScanned(req, cutoff);
    avg := if filled > 0.0 then notional / filled else req.limitPrice;
  }

  lemma ScanStep(trades: seq<VenueTrade>, req: Request, cutoff: real, i: nat)
    requires i < |trades|
    ensures RecentSize(trades[i..], req, cutoff)
        == SizeIf(trades[i], req, cutoff) + RecentSize(trades[i + 1..], req, cutoff)
    ensures RecentNotional(trades[i..], req, cutoff)
         == NotionalIf(trades[i], req, cutoff) + RecentNotional(trades[i + 1..], req, cutoff)
  {
    hide SizeIf, NotionalIf;
    assert trades[i..][0] == trades[i] && trades[i..][1..] == trades[i + 1..];
  }

  lemma NothingScanned(req: Request, cutoff: real)
    ensures RecentSize([], req, cutoff) == 0.0 && RecentNotional([], req, cutoff) == 0.0
  {
  }

  function PmFees(price: real, size: real, bps: int): real {
    if size <= 0.0 then 0.0 else PmTakerFee(price, size, bps)
  }

  // The token's fee rate, or the lookup raising on a malformed answer; asked after the post,
  // and only when something filled.
  datatype FeeAnswer = Rate(bps: int) | LookupRaises

  // The reply once shares and price are known.
  function Settled(req: Request, filled: real, avg: real, orderId: Option<string>, fee: FeeAnswer): Reply {
    if filled > 0.0 && fee.LookupRaises? then Raised
    else
      var fees := if filled > 0.0 then PmFees(avg, filled, fee.bps) else 0.0;
      Returned(Outcome(FillStatus(filled, req.size * PM_FILLED_SHARE), req.size, filled, avg, fees, orderId, None,
                       true))
  }

  // After an unknown fate: report the fill if one is found, else fail for good.
  function AmbiguousReply(req: Request, filled: real, avg: real, fee: FeeAnswer): Reply {
    if filled > 0.0 then
      match fee
      case LookupRaises => Raised
      case Rate(bps) =>
        Returned(Outcome(if filled >= req.size * PM_FILLED_SHARE then Filled else PartlyFilled,
                         req.size, filled, avg, PmFees(avg, filled, bps), None, None, true))
    else Returned(FailedOutcome(req.size).(retryable := false))
  }

  predicate Posted(armed: bool, req: Request) {
    armed && (Marketable(req) ==> req.limitPrice > 0.0 && DollarsSent(req) > 0.0)
  }

  method PolymarketPlace(armed: bool, req: Request, answer: PmAnswer, fee: FeeAnswer) returns (r: Reply)
    ensures r == PmPlace(armed, req, answer, fee)
  {
    if !armed { return Returned(FailedOutcome(req.size)); }
    var dollars := None;
    if Marketable(req) {
      if req.limitPrice <= 0.0 { return Returned(FailedOutcome(req.size)); }
      if DollarsSent(req) <= 0.0 { return Returned(FailedOutcome(req.size)); }
      dollars := Some(DollarsSent(req));
    }
    match answer
    case PmRejected => return Returned(FailedOutcome(req.size));
    case PmUnknown(recent, now) =>
      var filled, avg := FindRecentFill(recent, req, now);
      if filled > 0.0 { QuotientUnique(avg, filled, RecentNotional(recent, req, now - RECENT_WINDOW)); }
      return AmbiguousReply(req, filled, avg, fee);
    case PmAccepted(orderId, body) =>
      var fill := ParseFill(body, req, dollars);
      if fill.None? { return Raised; }
      var (filled, avg) := fill.value;
      var fees := 0.0;
      if filled > 0.0 {
        if fee.LookupRaises? { return Raised; }
        fees := PmFees(avg, filled, fee.bps);
      }
      var status := FillStatus(filled, req.size * PM_FILLED_SHARE);
      return Returned(Outcome(status, req.size, filled, avg, fees, Some(orderId), None, true));
  }

  lemma QuotientUnique(avg: real, n: real, c: real)
    requires n > 0.0 && avg * n == c
    ensures avg == c / n
  {
    assert (avg - c / n) * n == 0.0;
    SignOfProduct(avg - c / n, n);
    SignOfProduct(c / n - avg, n);
  }

  // The reply to a Polymarket placement as a function of what the venue answers.
  function PmPlace(armed: bool, req: Request, answer: PmAnswer, fee: FeeAnswer): Reply {
    if !Posted(armed, req) then Returned(FailedOutcome(req.size))
    else
      match answer
      case PmRejected => Returned(FailedOutcome(req.size))
      case PmUnknown(recent, now) =>
        var cutoff := now - RECENT_WINDOW;
        var filled := RecentSize(recent, req, cutoff);
        AmbiguousReply(req, filled, if filled > 0.0 then RecentNotional(recent, req, cutoff) / filled
          else req.limitPrice, fee)
      case PmAccepted(orderId, body) =>
        match ParseFill(body, req, if Marketable(req) then Some(DollarsSent(req)) else None)
        case None => Raised
        case Some((filled, avg)) => Settled(req, filled, avg, Some(orderId), fee)
  }

  predicate NonNegativeReport(answer: PmAnswer) {
    answer.PmAccepted? && answer.body.matched.Some? ==> answer.body.matched.value >= 0.0
  }

  // A Polymarket placement of a positive size is well formed whatever comes back, unless
  // it raises.
  lemma PmWellFormed(armed: bool, req: Request, answer: PmAnswer, fee: FeeAnswer)
    requires req.size > 0.0 && NonNegativeReport(answer)
    ensures var r := PmPlace(armed, req, answer, fee); r.Returned? ==> WellFormed(r.outcome)
  {
    hide PmFees, DollarsSent, RecentNotional;
    if answer.PmAccepted? && Posted(armed, req) {
      ParsedNonNegative(answer.body, req, if Marketable(req) then Some(DollarsSent(req)) else None);
    }
  }

  lemma ParsedNonNegative(body: FillBody, req: Request, dollars: Option<real>)
    requires req.size > 0.0 && (dollars.Some? ==> dollars.value > 0.0)
    requires body.matched.Some? ==> body.matched.value >= 0.0
    ensures var fill := ParseFill(body, req, dollars); fill.Some? ==> fill.value.0 >= 0.0
  {
    var price := FallbackPrice(body, req);
    if dollars.Some? && price > 0.0 { assert dollars.value / price >= 0.0; }
  }

  // The fee of a fill, in hundred-thousandths of a dollar: nearest to what the rate owes.
  predicate FeeNearest(fees: real, bps: int, price: real, size: real) {
    var units, owed := fees * 100000.0, QuantaOwed(bps, price, size);
    units == units.Floor as real && units - 1.0 < owed <= units + 0.5
  }

  lemma PmFeesNearest(price: real, size: real, bps: int)
    requires size > 0.0 && 0.0 <= price <= 1.0
    ensures if bps <= 0 then PmFees(price, size, bps) == 0.0 else FeeNearest(PmFees(price, size, bps), bps, price, size)
  {
    hide PmTakerFee, QuantaOwed;
    PolymarketSchedule(bps, price, size);
    OwedNonNegative(bps, price, size);
  }

  // The shares and the money an accepted order is reported with: an explicit matched size at
  // its price or the limit; else the amounts taken and made, shares against dollars by the
  // side of the order; else, on success, the dollars sent or the whole order; else nothing.
  lemma AcceptedReports(req: Request, orderId: string, body: FillBody, fee: FeeAnswer)
    requires Posted(true, req)
    ensures var r := PmPlace(true, req, PmAccepted(orderId, body), fee);
            r.Returned? ==>
              var o := r.outcome;
              var whole := req.action == Buy && (req.tif == FOK || req.tif == FAK);
              var price := if body.price.Number? && body.price.value != 0.0 then body.price.value else req.limitPrice;
              && o.requested == req.size && o.orderId == Some(orderId) && o.retryable
              && (o.status == Filled <==> o.filled >= 0.999 * req.size)
              && (o.filled <= 0.0 ==> o.fees == 0.0)
              && (if body.matched.Some? then
                    && o.filled == body.matched.value
                    && o.avgPrice == if body.price.Number? then body.price.value else req.limitPrice
                  else if body.taking.Some? && body.making.Some? && req.action == Buy && body.taking.value > 0.0 then
                    o.filled == body.taking.value && o.avgPrice * o.filled == body.making.value
                  else if body.taking.Some? && body.making.Some? && req.action == Sell && body.making.value > 0.0 then
                    o.filled == body.making.value && o.avgPrice * o.filled == body.taking.value
                  else if body.success && whole && price > 0.0 then
                    o.avgPrice == price && o.filled * price == DollarsSent(req)
                  else o.avgPrice == req.limitPrice && o.filled == if body.success && !whole then req.size else 0.0)
  {
    hide PmFees, DollarsSent;
    var r := PmPlace(true, req, PmAccepted(orderId, body), fee);
    if r.Returned? {
      QuotientBack(body.making, body.taking);
      QuotientBack(body.taking, body.making);
      QuotientBack(Some(DollarsSent(req)), Some(FallbackPrice(body, req)));
    }
  }

  // The dollars sent are the notional to the nearest cent.
  lemma DollarsToTheCent(req: Request)
    ensures -0.005 <= DollarsSent(req) - req.size * req.limitPrice <= 0.005
    ensures DollarsSent(req) * 100.0 == (DollarsSent(req) * 100.0).Floor as real
  {
    hide ToCents;
    NearestCent(Notional(req));
  }

  lemma NearestCent(x: real)
    ensures -0.005 <= ToCents(x) - x <= 0.005 && ToCents(x) * 100.0 == (ToCents(x) * 100.0).Floor as real
  {
    hide RoundHalfEven;
    RoundHalfEvenNear(x * 100.0);
  }

  lemma QuotientBack(a: Option<real>, b: Option<real>)
    ensures a.Some? && b.Some? && b.value > 0.0 ==> a.value / b.value * b.value == a.value
  {
  }

  lemma AcceptedFees(req: Request, orderId: string, body: FillBody, bps: int)
    requires Posted(true, req)
    ensures var r := PmPlace(true, req, PmAccepted(orderId, body), Rate(bps));
            r.Returned? && r.outcome.filled > 0.0 && 0.0 <= r.outcome.avgPrice <= 1.0 ==>
              if bps <= 0 then r.outcome.fees == 0.0
              else FeeNearest(r.outcome.fees, bps, r.outcome.avgPrice, r.outcome.filled)
  {
    hide ParseFill, PmFees, DollarsSent, FeeNearest;
    var r := PmPlace(true, req, PmAccepted(orderId, body), Rate(bps));
    if r.Returned? && r.outcome.filled > 0.0 && 0.0 <= r.outcome.avgPrice <= 1.0 {
      PmFeesNearest(r.outcome.avgPrice, r.outcome.filled, bps);
    }
  }

  // A fill found for an order of unknown fate is reported at its own money and fee.
  lemma FoundReports(req: Request, recent: seq<VenueTrade>, now: real, bps: int)
    requires Posted(true, req) && Found(recent, req, now)
    ensures var r := PmPlace(true, req, PmUnknown(recent, now), Rate(bps));
            && r.Returned?
            && var o := r.outcome;
               && o.requested == req.size && o.filled == RecentSize(recent, req, now - 120.0) > 0.0
               && o.avgPrice * o.filled == RecentNotional(recent, req, now - 120.0)
               && (o.status == Filled <==> o.filled >= 0.999 * req.size) && o.Done() && o.retryable
               && (0.0 <= o.avgPrice <= 1.0 ==> if bps <= 0 then o.fees == 0.0
                                                else FeeNearest(o.fees, bps, o.avgPrice, o.filled))
  {
    hide PmFees, RecentSize, RecentNotional, FeeNearest;
    FoundHasSize(recent, req, now);
    var o := PmPlace(true, req, PmUnknown(recent, now), Rate(bps)).outcome;
    if 0.0 <= o.avgPrice <= 1.0 { PmFeesNearest(o.avgPrice, o.filled, bps); }
  }

  // Which trades the scan counts: those of the token, not of the other side, not older than
  // the cutoff, with a positive size and a price.
  lemma {:induction false} ScanCounts(recent: seq<VenueTrade>, t: VenueTrade, req: Request, cutoff: real)
    ensures var counts := && t.token == req.instrument && t.side != Some(if req.action == Buy then Sell else Buy)
                          && !(t.time.Some? && t.time.value < cutoff)
                          && t.size.Some? && t.size.value > 0.0 && t.price.Some?;
            && RecentSize(recent + [t], req, cutoff)
               == RecentSize(recent, req, cutoff) + (if counts then t.size.value else 0.0)
            && RecentNotional(recent + [t], req, cutoff)
               == RecentNotional(recent, req, cutoff) + (if counts then t.price.value * t.size.value else 0.0)
  {
    if recent == [] {
      assert recent + [t] == [t] && [t][1..] == [];
    } else {
      assert (recent + [t])[1..] == recent[1..] + [t];
      ScanCounts(recent[1..], t, req, cutoff);
    }
  }

  // Did the scan find anything?
  ghost predicate Found(recent: seq<VenueTrade>, req: Request, now: real) {
    exists i :: 0 <= i < |recent| && Matches(recent[i], req, now - RECENT_WINDOW)
  }

  lemma {:induction false} FoundHasSize(recent: seq<VenueTrade>, req: Request, now: real)
    ensures RecentSize(recent, req, now - RECENT_WINDOW) > 0.0 <==> Found(recent, req, now)
  {
    if recent != [] {
      var rest := recent[1..];
      FoundHasSize(rest, req, now);
      if Found(rest, req, now) {
        var i :| 0 <= i < |rest| && Matches(rest[i], req, now - RECENT_WINDOW);
        assert recent[i + 1] == rest[i];
      }
      if Found(recent, req, now) && !Matches(recent[0], req, now - RECENT_WINDOW) {
        var i :| 0 <= i < |recent| && Matches(recent[i], req, now - RECENT_WINDOW);
        assert rest[i - 1] == recent[i];
      }
    }
  }

  // An order whose fate is unknown is offered for another post exactly when its fill was
  // found and the fee lookup raises; otherwise it is done or failed for good.
  lemma AmbiguousRetriedIff(req: Request, recent: seq<VenueTrade>, now: real, fee: FeeAnswer, armed: bool)
    requires Posted(armed, req)
    ensures var r := PmPlace(armed, req, PmUnknown(recent, now), fee);
            && (RetriesAfter(r) <==> Found(recent, req, now) && fee.LookupRaises?)
            && (r.Raised? <==> Found(recent, req, now) && fee.LookupRaises?)
  {
    hide PmFees;
    FoundHasSize(recent, req, now);
  }

  // ------------------------------------------------------- whose fills were found

  // The part of the matching trades that came from this very order.
  function OwnSize(trades: seq<VenueTrade>, own: seq<bool>, req: Request, cutoff: real): real
    requires |own| == |trades|
  {
    if trades == [] then 0.0
    else (if own[0] then SizeIf(trades[0], req, cutoff) else 0.0) + OwnSize(trades[1..], own[1..], req, cutoff)
  }

  ghost predicate OnlyOwn(trades: seq<VenueTrade>, own: seq<bool>, req: Request, cutoff: real)
    requires |own| == |trades|
  {
    forall i :: 0 <= i < |trades| && Matches(trades[i], req, cutoff) ==> own[i]
  }

  lemma {:induction false} OwnAgainstFound(trades: seq<VenueTrade>, own: seq<bool>, req: Request, cutoff: real)
    requires |own| == |trades|
    ensures OwnSize(trades, own, req, cutoff) <= RecentSize(trades, req, cutoff)
    ensures OwnSize(trades, own, req, cutoff) == RecentSize(trades, req, cutoff) <==> OnlyOwn(trades, own, req, cutoff)
  {
    if trades != [] {
      OwnAgainstFound(trades[1..], own[1..], req, cutoff);
      assert OnlyOwn(trades, own, req, cutoff) <==>
        (Matches(trades[0], req, cutoff) ==> own[0]) && OnlyOwn(trades[1..], own[1..], req, cutoff) by {
        assert forall i :: 0 <= i < |trades[1..]| ==> trades[1..][i] == trades[i + 1] && own[1..][i] == own[i + 1];
        assert forall i :: 1 <= i < |trades| ==> trades[i] == trades[1..][i - 1] && own[i] == own[1..][i - 1];
      }
    }
  }

  // After an unknown fate that is answered, the reported fill is never less than what this
  // order filled, and is exactly that if and only if no other order traded the token on
  // that side in the window.
  lemma AmbiguousIsOwnIff(req: Request, recent: seq<VenueTrade>, own: seq<bool>, now: real, fee: FeeAnswer, armed: bool)
    requires Posted(armed, req) && |own| == |recent|
    ensures var r := PmPlace(armed, req, PmUnknown(recent, now), fee);
            var filled := OwnSize(recent, own, req, now - RECENT_WINDOW);
            && (r.Returned? <==> fee.Rate? || !Found(recent, req, now))
            && (r.Returned? ==> r.outcome.filled >= filled)
            && (r.Returned? ==> (r.outcome.filled == filled <==> OnlyOwn(recent, own, req, now - RECENT_WINDOW)))
  {
    hide PmFees, RecentNotional;
    FoundHasSize(recent, req, now);
    OwnAgainstFound(recent, own, req, now - RECENT_WINDOW);
  }

  // A trade of the order's own token, side, size and price.
  function OwnTrade(req: Request, now: real): VenueTrade {
    VenueTrade(req.instrument, Some(req.action), Some(now), Some(req.size), Some(req.limitPrice), None)
  }

  lemma OwnTradeFound(req: Request, now: real)
    requires req.size > 0.0
    ensures Found([OwnTrade(req, now)], req, now)
    ensures RecentSize([OwnTrade(req, now)], req, now - RECENT_WINDOW) == req.size
    ensures OwnSize([OwnTrade(req, now)], [true], req, now - RECENT_WINDOW) == req.size
  {
    assert Matches([OwnTrade(req, now)][0], req, now - RECENT_WINDOW);
  }

  // An order that never landed, one earlier trade just like it: reported filled in full.
  lemma PhantomFill(req: Request, now: real, bps: int)
    requires Posted(true, req) && req.size > 0.0
    ensures var r := PmPlace(true, req, PmUnknown([OwnTrade(req, now)], now), Rate(bps));
            && OwnSize([OwnTrade(req, now)], [false], req, now - RECENT_WINDOW) == 0.0
            && r.Returned? && r.outcome.status == Filled && r.outcome.filled == req.size
  {
    hide PmFees;
    OwnTradeFound(req, now);
  }

  // ------------------------------------------------------- reports above the order

  // Answers that claim no more than the order: counts at most its size, and a bare success
  // at no better price than the limit.
  predicate Modest(req: Request, answer: PmAnswer) {
    match answer
    case PmRejected => true
    case PmUnknown(recent, now) => RecentSize(recent, req, now - RECENT_WINDOW) <= req.size
    case PmAccepted(_, body) =>
      && (body.matched.Some? ==> body.matched.value <= req.size)
      && (req.action == Buy && body.taking.Some? ==> body.taking.value <= req.size)
      && (req.action == Sell && body.making.Some? ==> body.making.value <= req.size)
      && FallbackPrice(body, req) >= req.limitPrice
  }

  // Such an answer reports at most half a share more than the order: the cents again.
  lemma ModestReport(armed: bool, req: Request, answer: PmAnswer, fee: FeeAnswer)
    requires req.size >= 1.0 && req.limitPrice >= 0.01 && Modest(req, answer)
    ensures var r := PmPlace(armed, req, answer, fee); r.Returned? ==> r.outcome.filled <= req.size + 0.5
  {
    hide PmFees, DollarsSent, RecentNotional;
    DollarsNear(req);
    if answer.PmAccepted? {
      var price, sent := FallbackPrice(answer.body, req), DollarsSent(req);
      var shares := sent / price;
      assert shares * price == sent;
      AtMostHalfMore(shares, req.size, price, req.limitPrice, sent);
    }
  }

  lemma AtMostHalfMore(shares: real, size: real, price: real, limit: real, sent: real)
    requires price >= limit >= 0.01 && size >= 0.0 && shares * price == sent && sent <= size * limit + 0.005
    ensures shares <= size + 0.5
  {
    Ladders.MulMono(limit, price, size);
    assert (shares - size) * price == sent - size * price;
    if shares - size > 0.5 { Ladders.MulMono(0.5, shares - size, price); ProductPositive(shares - size - 0.5, price); }
  }

  // ----------------------------------------------------- dollars and shares

  // Sending dollars at two decimals moves a marketable buy by at most half a cent of
  // notional: at a price of a cent or more, by at most half a share.
  lemma CentRoundingDust(req: Request, fee: FeeAnswer, orderId: string)
    requires Marketable(req) && req.limitPrice >= 0.01 && req.size >= 1.0
    ensures Posted(true, req)
    ensures var bare := FillBody(None, Missing, None, None, true);
            var r := PmPlace(true, req, PmAccepted(orderId, bare), fee);
            && (r.Returned? <==> fee.Rate?)
            && (r.Returned? ==>
                  && r.outcome.Done()
                  && -0.5 <= r.outcome.filled - req.size <= 0.5
                  && r.outcome.filled * req.limitPrice == DollarsSent(req))
  {
    hide PmFees, DollarsSent;
    DollarsNear(req);
    var sent := DollarsSent(req);
    var shares := sent / req.limitPrice;
    assert shares * req.limitPrice == sent;
    assert (shares - req.size) * req.limitPrice == sent - req.size * req.limitPrice;
    ShareError(shares - req.size, req.limitPrice, sent - req.size * req.limitPrice);
  }

  lemma DollarsNear(req: Request)
    requires req.limitPrice >= 0.01 && req.size >= 1.0
    ensures DollarsSent(req) > 0.0
    ensures -0.005 <= DollarsSent(req) - req.size * req.limitPrice <= 0.005
  {
    DollarsToTheCent(req);
    NotionalAtLeast(req.size, req.limitPrice);
    PositiveCents(Notional(req));
  }

  lemma PositiveCents(x: real)
    requires x >= 0.01
    ensures ToCents(x) > 0.0
  {
    RoundedPositive(x * 100.0);
  }

  lemma NotionalAtLeast(size: real, price: real)
    requires size >= 1.0 && price >= 0.01
    ensures size * price >= 0.01
  {
    assert (size - 1.0) * price >= 0.0;
  }

  lemma RoundedPositive(x: real)
    requires x >= 1.0
    ensures RoundHalfEven(x) >= 1
  {
  }

  lemma ShareError(gap: real, price: real, dollars: real)
    requires price >= 0.01 && gap * price == dollars && -0.005 <= dollars <= 0.005
    ensures -0.5 <= gap <= 0.5
  {
    if gap > 0.5 { ProductPositive(gap - 0.5, price); }
    if gap < -0.5 { ProductPositive(-0.5 - gap, price); }
  }
}
