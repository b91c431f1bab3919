/** The analyzer's complementary walk, and its agreement with the probe's.

    The analyzer records every profitable slice, stops at a combined price of a dollar,
    skips levels below a minimum volume, caps the number of trades, and slips prices on
    synthetic books. With those three switched off it retraces the probe's walk. */
module AnalyzerWalk {
  import opened Ladders
  import opened VenueFees
  import opened BasketWalk
  import opened BasketOptimality
  import opened ComplementaryWalk

  const BASE_SLIPPAGE_RATE := 0.001
  const SLIPPAGE_IMPACT_FACTOR := 0.01
  const MAX_SLIPPAGE_RATE := 0.05

  // The analyzer's settings; `fees` is Charged in the code.
  datatype Settings = Settings(fees: FeeMode, bps: int, minVolume: real, synthetic: bool,
                               fallbackA: real, fallbackB: real)

  datatype Trade = Trade(priceA: real, priceB: real, volume: real, gross: real, net: real,
                         slippage: real, feeA: real, feeB: real)

  // Venue fee for one level; a flat rate only when the Polymarket model yields nothing.
  function EstimateFee(s: Settings, venue: Venue, price: real, volume: real, fallback: real): real {
    var p, v := Max(price, 0.0), Max(volume, 0.0);
    var notional := p * v;
    if notional <= 0.0 then 0.0
    else match venue
      case Kalshi => Max(LegFee(Terms(s.fees, s.bps, 1.0), Ask(p, v, Kalshi), v), 0.0)
      case Polymarket =>
        var modeled := LegFee(Terms(s.fees, s.bps, 1.0), Ask(p, v, Polymarket), v);
        if s.bps > 0 && modeled > 0.0 then modeled else notional * Max(fallback, 0.0)
  }

  function Slippage(s: Settings, volume: real, sizeA: real, sizeB: real): real {
    if !s.synthetic then 0.0
    else
      var ratio := volume / Max(Max(sizeA, sizeB), 1.0);
      Min(BASE_SLIPPAGE_RATE + ratio * SLIPPAGE_IMPACT_FACTOR, MAX_SLIPPAGE_RATE)
  }

  function TradeAt(s: Settings, a: Ask, b: Ask): Trade {
    var volume := Min(a.size, b.size);
    var slip := Slippage(s, volume, a.size, b.size);
    var pa, pb := a.price * (1.0 + slip), b.price * (1.0 + slip);
    var feeA := EstimateFee(s, a.venue, pa, volume, s.fallbackA);
    var feeB := EstimateFee(s, b.venue, pb, volume, s.fallbackB);
    var gross := volume - (pa + pb) * volume;
    Trade(pa, pb, volume, gross, gross - feeA - feeB, slip, feeA, feeB)
  }

  // Consumption tests for exact exhaustion, without the probe's residue.
  function Deplete(lad: seq<Ask>, volume: real): seq<Ask>
    requires lad != []
  {
    var left := lad[0].size - volume;
    if left <= 0.0 then lad[1..] else [lad[0].(size := left)] + lad[1..]
  }

  // The trades still recorded from these ladders when `room` more may be.
  function Trades(s: Settings, A: seq<Ask>, B: seq<Ask>, room: nat): (ts: seq<Trade>)
    ensures |ts| <= room
    decreases |A| + |B|
  {
    if A == [] || B == [] || room == 0 || A[0].price + B[0].price >= 1.0 then []
    else
      var volume := Min(A[0].size, B[0].size);
      if volume < s.minVolume then
        if A[0].size <= B[0].size then Trades(s, A[1..], B, room) else Trades(s, A, B[1..], room)
      else
        var trade := TradeAt(s, A[0], B[0]);
        if trade.net > 0.0 then [trade] + Trades(s, Deplete(A, volume), Deplete(B, volume), room - 1)
        else Trades(s, Deplete(A, volume), Deplete(B, volume), room)
  }

  method ComplementaryVolume(a: seq<Level>, b: seq<Level>, va: Venue, vb: Venue, s: Settings, maxTrades: nat)
    returns (trades: seq<Trade>)
    ensures trades == Trades(s, Tag(SortByPrice(a), va), Tag(SortByPrice(b), vb), maxTrades)
  {
    hide Trades, TradeAt, Tag, SortByPrice, Deplete;
    var qa, qb := Tag(SortByPrice(a), va), Tag(SortByPrice(b), vb);
    var ia, ib := 0, 0;
    ghost var target := Trades(s, qa, qb, maxTrades);
    trades := [];
    assert qa[0..] == qa && qb[0..] == qb;
    while ia < |qa| && ib < |qb| && |trades| < maxTrades
      invariant 0 <= ia <= |qa| && 0 <= ib <= |qb| && |trades| <= maxTrades
      invariant target == trades + Trades(s, qa[ia..], qb[ib..], maxTrades - |trades|)
      decreases |qa| - ia + |qb| - ib
    {
      var x, y := qa[ia], qb[ib];
      assert qa[ia..][0] == x && qb[ib..][0] == y;
      assert qa[ia..][1..] == qa[ia + 1..] && qb[ib..][1..] == qb[ib + 1..];
      TradesRound(s, qa[ia..], qb[ib..], maxTrades - |trades|);
      if x.price + y.price >= 1.0 { break; }
      var volume := Min(x.size, y.size);
      if volume < s.minVolume {
        if x.size <= y.size { ia := ia + 1; } else { ib := ib + 1; }
        continue;
      }
      var trade := TradeAt(s, x, y);
      ghost var before := trades;
      if trade.net > 0.0 { trades := trades + [trade]; }
      assert trade.net > 0.0 ==> forall rest: seq<Trade> :: before + ([trade] + rest) == trades + rest;
      DepleteInPlace(qa, ia, volume);
      DepleteInPlace(qb, ib, volume);
      qa := qa[ia := x.(size := x.size - volume)];
      qb := qb[ib := y.(size := y.size - volume)];
      if qa[ia].size <= 0.0 { ia := ia + 1; }
      if qb[ib].size <= 0.0 { ib := ib + 1; }
    }
    TradesRound(s, qa[ia..], qb[ib..], maxTrades - |trades|);
    assert trades + [] == trades;
  }

  lemma TradesRound(s: Settings, A: seq<Ask>, B: seq<Ask>, room: nat)
    ensures A == [] || B == [] || room == 0 || A[0].price + B[0].price >= 1.0 ==> Trades(s, A, B, room) == []
    ensures A != [] && B != [] && room != 0 && A[0].price + B[0].price < 1.0 ==>
      var volume := Min(A[0].size, B[0].size);
      Trades(s, A, B, room) ==
        if volume < s.minVolume then
          (if A[0].size <= B[0].size then Trades(s, A[1..], B, room) else Trades(s, A, B[1..], room))
        else if TradeAt(s, A[0], B[0]).net > 0.0 then
          [TradeAt(s, A[0], B[0])] + Trades(s, Deplete(A, volume), Deplete(B, volume), room - 1)
        else Trades(s, Deplete(A, volume), Deplete(B, volume), room)
  {
  }

  lemma DepleteInPlace(lad: seq<Ask>, i: nat, volume: real)
    requires i < |lad|
    ensures var left := lad[i].(size := lad[i].size - volume);
            lad[i := left][if left.size <= 0.0 then i + 1 else i..] == Deplete(lad[i..], volume)
  {
    var left := lad[i].(size := lad[i].size - volume);
    assert lad[i..][0] == lad[i] && lad[i..][1..] == lad[i + 1..];
    assert lad[i := left][i..] == [left] + lad[i + 1..];
    assert lad[i := left][i + 1..] == lad[i + 1..];
  }

  // ------------------------------------------------------------- agreement

  // No minimum volume, no slippage; fees priced at the probe's Polymarket rate.
  ghost predicate Aligned(s: Settings, t: Terms) {
    && s.fees == t.fees && s.bps == t.bps && s.minVolume == 0.0 && !s.synthetic
    && t.payout == 1.0 && t.bps <= 10000
  }

  // And at a zero rate no flat fallback either.
  ghost predicate Matching(s: Settings, t: Terms) {
    Aligned(s, t) && (t.bps > 0 || (s.fallbackA <= 0.0 && s.fallbackB <= 0.0))
  }

  // A slice as the analyzer would record it.
  function AsTrade(t: Terms, s: Slice): Trade
    requires |s.levels| == 2
  {
    var a, b := s.levels[0], s.levels[1];
    var gross := s.size - (a.price + b.price) * s.size;
    Trade(a.price, b.price, s.size, gross, PairMargin(t, a, b, s.size), 0.0, LegFee(t, a, s.size), LegFee(t, b, s.size))
  }

  function AsTrades(t: Terms, slices: seq<Slice>): (ts: seq<Trade>)
    requires forall s :: s in slices ==> |s.levels| == 2
    ensures |ts| == |slices|
  {
    if slices == [] then [] else [AsTrade(t, slices[0])] + AsTrades(t, slices[1..])
  }

  // Below a combined dollar the analyzer's estimate is the probe's fee, unless a Polymarket
  // leg at a zero rate falls back to a positive flat rate.
  lemma EstimateIsFee(s: Settings, t: Terms, a: Ask, size: real, fallback: real)
    requires Aligned(s, t) && 0.0 <= a.price < 1.0 && size > 0.0
    ensures EstimateFee(s, a.venue, a.price, size, fallback) == LegFee(t, a, size)
       <==> a.venue == Kalshi || t.bps > 0 || fallback <= 0.0 || a.price == 0.0
  {
    hide TakerFee, Quadratic;
    var rate := TakerRate(a.venue, t.bps);
    FeeBracket(a.venue, t.bps, a.price, size);
    QuadraticNonNegative(rate, size, a.price);
    if a.price > 0.0 {
      ProductPositive(a.price, size);
      if rate > 0.0 { QuadraticPositive(rate, size, a.price); } else { ZeroRate(size, a.price); }
      if fallback > 0.0 { ProductPositive(a.price * size, fallback); }
    } else {
      FreeAtZero(rate, size);
    }
  }

  lemma FreeAtZero(rate: real, size: real)
    ensures Quadratic(rate, size, 0.0) == 0.0
  {
  }

  // The estimate in the venues' own figures: Kalshi's cents, Polymarket's hundred-thousandths
  // when its rate is positive, and the flat fallback on the notional when they come to nothing.
  lemma EstimateSchedule(s: Settings, venue: Venue, price: real, volume: real, fallback: real)
    requires s.fees == Charged
    ensures var fee := EstimateFee(s, venue, price, volume, fallback);
            && (price <= 0.0 || volume <= 0.0 ==> fee == 0.0)
            && (0.0 < price <= 1.0 && volume > 0.0 ==>
                  match venue
                  case Kalshi =>
                    var cents := fee * 100.0;
                    cents == cents.Floor as real && cents - 1.0 < 7.0 * Curve(price, volume) <= cents
                  case Polymarket =>
                    if s.bps <= 0 || price == 1.0 then
                      fee == if fallback > 0.0 then price * volume * fallback else 0.0
                    else
                      var units, owed := fee * 100000.0, QuantaOwed(s.bps, price, volume);
                      units == units.Floor as real && units - 1.0 < owed <= units + 0.5)
  {
    hide TakerFee, QuantaOwed, Curve, Quadratic;
    ProductSigns(price, volume);
    if 0.0 < price <= 1.0 && volume > 0.0 {
      ProductPositive(price, volume);
      match venue
      case Kalshi => KalshiSchedule(s.bps, price, volume); FeeBracket(Kalshi, s.bps, price, volume);
      case Polymarket =>
        PolymarketSchedule(s.bps, price, volume);
        FeeBracket(Polymarket, s.bps, price, volume);
        OwedNonNegative(s.bps, price, volume);
        if price == 1.0 { NothingAtOne(TakerRate(Polymarket, s.bps), volume); }
        else if s.bps > 0 { QuadraticPositive(TakerRate(Polymarket, s.bps), volume, price); }
    }
  }

  lemma ProductSigns(price: real, volume: real)
    ensures price <= 0.0 || volume <= 0.0 ==> Max(price, 0.0) * Max(volume, 0.0) == 0.0
  {
  }

  lemma NothingAtOne(rate: real, size: real)
    ensures Quadratic(rate, size, 1.0) == 0.0
  {
  }

  // Slippage is for synthetic books only: a tenth of a percent and a hundredth of the share
  // of the larger level that is taken, a level counting for one contract at least, and never
  // more than five percent.
  lemma SlippageIs(s: Settings, volume: real, sizeA: real, sizeB: real)
    ensures var slip, room := Slippage(s, volume, sizeA, sizeB), Max(1.0, Max(sizeA, sizeB));
            && (!s.synthetic ==> slip == 0.0)
            && (s.synthetic ==> if (slip - 0.001) * room == 0.01 * volume then slip <= 0.05
                                else slip == 0.05 && 0.01 * volume > 0.049 * room)
  {
    var room := Max(Max(sizeA, sizeB), 1.0);
    var ratio := volume / room;
    assert ratio * room == volume;
    if s.synthetic && BASE_SLIPPAGE_RATE + ratio * SLIPPAGE_IMPACT_FACTOR > MAX_SLIPPAGE_RATE {
      MulMono(4.9, ratio, room);
      if 4.9 * room == ratio * room { SignOfProduct(ratio - 4.9, room); }
    }
  }

  // What one recorded pair comes to: the smaller size, both prices slipped up, a dollar a
  // contract less both, and each leg's estimated fee on its own venue.
  lemma TradeFigures(s: Settings, a: Ask, b: Ask)
    ensures var t, slip := TradeAt(s, a, b), Slippage(s, Min(a.size, b.size), a.size, b.size);
            && t.volume <= a.size && t.volume <= b.size && (t.volume == a.size || t.volume == b.size)
            && t.slippage == slip && t.priceA == a.price * (1.0 + slip) && t.priceB == b.price * (1.0 + slip)
            && t.gross == t.volume * (1.0 - t.priceA - t.priceB)
            && t.net == t.gross - t.feeA - t.feeB
            && t.feeA == EstimateFee(s, a.venue, t.priceA, t.volume, s.fallbackA)
            && t.feeB == EstimateFee(s, b.venue, t.priceB, t.volume, s.fallbackB)
  {
    hide Slippage, EstimateFee;
  }

  lemma TradeIsSlice(s: Settings, t: Terms, a: Ask, b: Ask)
    requires Matching(s, t) && a.price >= 0.0 && b.price >= 0.0 && a.price + b.price < 1.0
    requires Min(a.size, b.size) > 0.0
    ensures TradeAt(s, a, b) == AsTrade(t, Slice([a, b], Min(a.size, b.size)))
  {
    hide EstimateFee, LegFee;
    var size := Min(a.size, b.size);
    EstimateIsFee(s, t, a, size, s.fallbackA);
    EstimateIsFee(s, t, b, size, s.fallbackB);
    Regroup2(a.price, b.price, size);
  }

  lemma Regroup2(p: real, q: real, size: real)
    ensures p * (1.0 + 0.0) == p && q * (1.0 + 0.0) == q
    ensures size - (p + q) * size == (1.0 - p - q) * size
  {
  }

  ghost predicate PricesAscend(lad: seq<Ask>) {
    forall i, j :: 0 <= i < j < |lad| ==> lad[i].price <= lad[j].price
  }

  ghost predicate TameLeg(lot: real, lad: seq<Ask>) {
    SingleVenue(lad) && LegOnLots(lad, lot)
  }

  // On whole lots the residue test and the exact test consume alike.
  lemma ConsumeIsDeplete(lot: real, A: seq<Ask>, size: real)
    requires TameLeg(lot, A) && A != [] && OnLot(size, lot) && size <= A[0].size
    ensures ConsumeOne(A, size) == Deplete(A, size)
    ensures TameLeg(lot, Deplete(A, size))
  {
    LotsSubtract(A[0].size, size, lot);
  }

  // A combined price of a dollar at the heads leaves the probe nothing either.
  lemma DollarStopsProbe(t: Terms, A: seq<Ask>, B: seq<Ask>)
    requires t.payout == 1.0 && A != [] && B != [] && SingleVenue(A) && SingleVenue(B)
    requires A[0].price + B[0].price >= 1.0
    ensures Walk(t, [A, B]) == []
  {
    hide Walk;
    assert NoCross(A, B);
    NoCrossNoWalk(t, A, B);
  }

  // A level without size is invisible to the probe.
  lemma {:induction false} DeadHeadA(t: Terms, A: seq<Ask>, B: seq<Ask>)
    requires A != [] && A[0].size <= 0.0
    ensures Walk(t, [A, B]) == Walk(t, [A[1..], B])
    decreases |A| + |B|, 1
  {
    hide Walk, PairMargin;
    PairRound(t, A, B);
    PairRound(t, A[1..], B);
    if B != [] && B[0].size <= 0.0 {
      DeadHeadB(t, A[1..], B);
    }
  }

  lemma {:induction false} DeadHeadB(t: Terms, A: seq<Ask>, B: seq<Ask>)
    requires B != [] && B[0].size <= 0.0
    ensures Walk(t, [A, B]) == Walk(t, [A, B[1..]])
    decreases |A| + |B|, 0
  {
    hide Walk, PairMargin;
    PairRound(t, A, B);
    PairRound(t, A, B[1..]);
    if A != [] && A[0].size <= 0.0 {
      DeadHeadA(t, A, B[1..]);
    }
  }

  // Past the point where even the cheapest unit loses before rounding, nothing is recorded.
  lemma {:induction false} UnprofitableTail(s: Settings, t: Terms, lot: real, A: seq<Ask>, B: seq<Ask>, room: nat)
    requires Matching(s, t) && t.fees == Unrounded && TameLeg(lot, A) && TameLeg(lot, B)
    requires A != [] && B != []
      ==> UnitCost(t.bps, true, A[0]) + UnitCost(t.bps, true, B[0]) >= 1.0
    ensures Trades(s, A, B, room) == []
    decreases |A| + |B|
  {
    hide Trades, TradeAt, TameLeg, UnitCost, Deplete;
    TradesRound(s, A, B, room);
    if A != [] && B != [] && room != 0 && A[0].price + B[0].price < 1.0 {
      var volume := Min(A[0].size, B[0].size);
      if volume < 0.0 {
        if A[0].size <= B[0].size { TailKeeps(lot, t.bps, A); UnprofitableTail(s, t, lot, A[1..], B, room); }
        else { TailKeeps(lot, t.bps, B); UnprofitableTail(s, t, lot, A, B[1..], room); }
      } else {
        NoRecord(s, t, lot, A, B);
        DepleteKeeps(lot, t.bps, A, B);
        UnprofitableTail(s, t, lot, Deplete(A, volume), Deplete(B, volume), room);
      }
    }
  }

  lemma TailKeeps(lot: real, bps: int, A: seq<Ask>)
    requires TameLeg(lot, A) && A != [] && bps <= 10000
    ensures TameLeg(lot, A[1..])
    ensures A[1..] != [] ==> UnitCost(bps, true, A[1..][0]) >= UnitCost(bps, true, A[0])
  {
    if |A| > 1 { EffectiveMonotone(TakerRate(A[0].venue, bps), A[0].price, A[1].price); }
  }

  lemma DepleteKeeps(lot: real, bps: int, A: seq<Ask>, B: seq<Ask>)
    requires TameLeg(lot, A) && TameLeg(lot, B) && A != [] && B != [] && bps <= 10000
    ensures var volume := Min(A[0].size, B[0].size);
            && TameLeg(lot, Deplete(A, volume)) && TameLeg(lot, Deplete(B, volume))
            && |Deplete(A, volume)| + |Deplete(B, volume)| < |A| + |B|
            && (Deplete(A, volume) != [] ==> UnitCost(bps, true, Deplete(A, volume)[0]) >= UnitCost(bps, true, A[0]))
            && (Deplete(B, volume) != [] ==> UnitCost(bps, true, Deplete(B, volume)[0]) >= UnitCost(bps, true, B[0]))
  {
    hide UnitCost;
    var volume := Min(A[0].size, B[0].size);
    assert OnLot(A[0].size, lot) && OnLot(B[0].size, lot);
    DepleteHead(lot, bps, A, volume);
    DepleteHead(lot, bps, B, volume);
  }

  lemma DepleteHead(lot: real, bps: int, A: seq<Ask>, volume: real)
    requires TameLeg(lot, A) && A != [] && bps <= 10000 && OnLot(volume, lot) && volume <= A[0].size
    ensures TameLeg(lot, Deplete(A, volume)) && |Deplete(A, volume)| <= |A|
    ensures volume == A[0].size ==> |Deplete(A, volume)| < |A|
    ensures Deplete(A, volume) != [] ==> UnitCost(bps, true, Deplete(A, volume)[0]) >= UnitCost(bps, true, A[0])
  {
    hide TameLeg;
    ConsumeIsDeplete(lot, A, volume);
    TailKeeps(lot, bps, A);
  }

  lemma NoRecord(s: Settings, t: Terms, lot: real, A: seq<Ask>, B: seq<Ask>)
    requires Matching(s, t) && t.fees == Unrounded && TameLeg(lot, A) && TameLeg(lot, B)
    requires A != [] && B != [] && A[0].price + B[0].price < 1.0 && Min(A[0].size, B[0].size) >= 0.0
    requires UnitCost(t.bps, true, A[0]) + UnitCost(t.bps, true, B[0]) >= 1.0
    ensures TradeAt(s, A[0], B[0]).net <= 0.0
  {
    hide LegFee, UnitCost, EstimateFee;
    var size := Min(A[0].size, B[0].size);
    if size > 0.0 {
      TradeIsSlice(s, t, A[0], B[0]);
      UnroundedMargin(t, A[0], B[0], size);
      MulMono(1.0 - UnitCost(t.bps, true, A[0]) - UnitCost(t.bps, true, B[0]), 0.0, size);
    } else {
      NothingTraded(s, A[0], B[0]);
    }
  }

  lemma NothingTraded(s: Settings, a: Ask, b: Ask)
    requires Min(a.size, b.size) == 0.0
    ensures TradeAt(s, a, b).net == 0.0
  {
  }

  lemma UnroundedMargin(t: Terms, a: Ask, b: Ask, size: real)
    requires t.fees == Unrounded && t.payout == 1.0
    ensures PairMargin(t, a, b, size) == (1.0 - UnitCost(t.bps, true, a) - UnitCost(t.bps, true, b)) * size
  {
    hide Effective, RawTakerFee;
    RawFeeLinear(a.venue, t.bps, a.price, size);
    RawFeeLinear(b.venue, t.bps, b.price, size);
    SplitUnit(a.price, b.price, UnitCost(t.bps, true, a), UnitCost(t.bps, true, b), size);
  }

  lemma SplitUnit(p: real, q: real, u: real, v: real, size: real)
    ensures (1.0 - p - q) * size == size - p * size - q * size
    ensures (1.0 - u - v) * size == size - u * size - v * size
  {
  }

  // The two walks agree: the probe's slices are a prefix of the analyzer's trades, and
  // before rounding they are all of them.
  lemma {:induction false} WalksAgree(s: Settings, t: Terms, lot: real, A: seq<Ask>, B: seq<Ask>, room: nat)
    requires Matching(s, t) && TameLeg(lot, A) && TameLeg(lot, B) && room >= |A| + |B|
    ensures AsTrades(t, Walk(t, [A, B])) <= Trades(s, A, B, room)
    ensures t.fees == Unrounded ==> AsTrades(t, Walk(t, [A, B])) == Trades(s, A, B, room)
    decreases |A| + |B|
  {
    hide Walk, Trades, TradeAt, TameLeg, UnitCost, Deplete, ConsumeOne, PairMargin, Matching, SingleVenue, LegOnLots;
    PairRound(t, A, B);
    TradesRound(s, A, B, room);
    if A != [] && B != [] {
      if A[0].price + B[0].price >= 1.0 {
        TameIsSingle(lot, A);
        TameIsSingle(lot, B);
        MatchingPayout(s, t);
        DollarStopsProbe(t, A, B);
      } else {
        WalksAgreeStep(s, t, lot, A, B, room);
      }
    }
  }

  lemma MatchingPayout(s: Settings, t: Terms)
    requires Matching(s, t)
    ensures t.payout == 1.0 && s.minVolume == 0.0 && t.bps <= 10000
  {
  }

  lemma TameIsSingle(lot: real, A: seq<Ask>)
    requires TameLeg(lot, A)
    ensures SingleVenue(A)
    ensures A != [] ==> 0.0 <= A[0].price <= 1.0 && OnLot(A[0].size, lot)
  {
  }

  lemma WalksAgreeStep(s: Settings, t: Terms, lot: real, A: seq<Ask>, B: seq<Ask>, room: nat)
    requires Matching(s, t) && TameLeg(lot, A) && TameLeg(lot, B) && room >= |A| + |B|
    requires A != [] && B != [] && A[0].price + B[0].price < 1.0
    ensures AsTrades(t, Walk(t, [A, B])) <= Trades(s, A, B, room)
    ensures t.fees == Unrounded ==> AsTrades(t, Walk(t, [A, B])) == Trades(s, A, B, room)
    decreases |A| + |B|, 0
  {
    hide Walk, Trades, TradeAt, TameLeg, UnitCost, Deplete, ConsumeOne, PairMargin, Matching, SingleVenue, LegOnLots;
    var volume := Min(A[0].size, B[0].size);
    PairRound(t, A, B);
    TradesRound(s, A, B, room);
    MatchingPayout(s, t);
    TameIsSingle(lot, A);
    TameIsSingle(lot, B);
    DepleteKeeps(lot, t.bps, A, B);
    if volume < 0.0 {
      if A[0].size <= B[0].size {
        TailKeeps(lot, t.bps, A);
        DeadHeadA(t, A, B);
        WalksAgree(s, t, lot, A[1..], B, room);
      } else {
        TailKeeps(lot, t.bps, B);
        DeadHeadB(t, A, B);
        WalksAgree(s, t, lot, A, B[1..], room);
      }
    } else if volume == 0.0 {
      NothingTraded(s, A[0], B[0]);
      DepleteIsSkip(A);
      DepleteIsSkip(B);
      WalksAgree(s, t, lot, SkipOne(A), SkipOne(B), room);
    } else {
      TradeIsSlice(s, t, A[0], B[0]);
      if PairMargin(t, A[0], B[0], volume) > 0.0 {
        ConsumeIsDeplete(lot, A, volume);
        ConsumeIsDeplete(lot, B, volume);
        WalksAgree(s, t, lot, Deplete(A, volume), Deplete(B, volume), room - 1);
        AsTradesCons(t, Slice([A[0], B[0]], volume), Walk(t, [Deplete(A, volume), Deplete(B, volume)]));
      } else if t.fees == Unrounded {
        UnroundedMargin(t, A[0], B[0], volume);
        SignOfProduct(1.0 - UnitCost(t.bps, true, A[0]) - UnitCost(t.bps, true, B[0]), volume);
        UnprofitableTail(s, t, lot, A, B, room);
      }
    }
  }

  lemma DepleteIsSkip(A: seq<Ask>)
    requires A != [] && A[0].size >= 0.0
    ensures Deplete(A, 0.0) == SkipOne(A)
  {
    if A[0].size > 0.0 { assert A == [A[0]] + A[1..]; }
  }

  lemma AsTradesCons(t: Terms, s: Slice, rest: seq<Slice>)
    requires |s.levels| == 2 && forall x :: x in rest ==> |x.levels| == 2
    ensures forall x :: x in [s] + rest ==> |x.levels| == 2
    ensures AsTrades(t, [s] + rest) == [AsTrade(t, s)] + AsTrades(t, rest)
  {
    assert ([s] + rest)[1..] == rest;
  }

  // One ascending book of probability prices in whole lots.
  ghost predicate Book(lot: real, ls: seq<Level>) {
    && Ascending(ls) && lot > RESIDUE
    && forall i :: 0 <= i < |ls| ==> 0.0 <= ls[i].price <= 1.0 && OnLot(ls[i].size, lot)
  }

  // The agreement of the two methods' results on the same two books.
  ghost predicate Agree(s: Settings, t: Terms, a: seq<Level>, b: seq<Level>, va: Venue, vb: Venue, maxTrades: nat) {
    var probe := AsTrades(t, Walk(t, [Tag(a, va), Tag(b, vb)]));
    var analyzer := Trades(s, Tag(SortByPrice(a), va), Tag(SortByPrice(b), vb), maxTrades);
    probe <= analyzer && (t.fees == Unrounded ==> probe == analyzer)
  }

  // Can the flat fallback ever be charged on a leg of this venue?
  predicate FallbackIdle(t: Terms, v: Venue, fallback: real) { t.bps > 0 || v == Kalshi || fallback <= 0.0 }

  lemma ProbeAndAnalyzerAgree(s: Settings, t: Terms, lot: real, a: seq<Level>, b: seq<Level>,
                              va: Venue, vb: Venue, maxTrades: nat)
    requires Aligned(s, t) && FallbackIdle(t, va, s.fallbackA) && FallbackIdle(t, vb, s.fallbackB)
    requires Book(lot, a) && Book(lot, b) && maxTrades >= |a| + |b|
    ensures Agree(s, t, a, b, va, vb, maxTrades)
  {
    hide Walk, Trades, AsTrades, EstimateFee;
    var idle := if t.bps > 0 then s else s.(fallbackA := 0.0, fallbackB := 0.0);
    SortOfAscending(a);
    SortOfAscending(b);
    assert TameLeg(lot, Tag(a, va)) && TameLeg(lot, Tag(b, vb));
    WalksAgree(idle, t, lot, Tag(a, va), Tag(b, vb), maxTrades);
    if t.bps <= 0 { IdleTrades(s, t, va, vb, Tag(a, va), Tag(b, vb), maxTrades); }
  }

  // A fallback that is never charged may as well be zero.
  lemma {:induction false} IdleTrades(s: Settings, t: Terms, va: Venue, vb: Venue, A: seq<Ask>, B: seq<Ask>, room: nat)
    requires Aligned(s, t) && t.bps <= 0
    requires FallbackIdle(t, va, s.fallbackA) && FallbackIdle(t, vb, s.fallbackB)
    requires (forall a :: a in A ==> a.venue == va) && (forall b :: b in B ==> b.venue == vb)
    ensures Trades(s, A, B, room) == Trades(s.(fallbackA := 0.0, fallbackB := 0.0), A, B, room)
    decreases |A| + |B|
  {
    hide Trades, TradeAt, FallbackIdle;
    var idle := s.(fallbackA := 0.0, fallbackB := 0.0);
    TradesRound(s, A, B, room);
    TradesRound(idle, A, B, room);
    if A != [] && B != [] && room != 0 && A[0].price + B[0].price < 1.0 {
      var volume := Min(A[0].size, B[0].size);
      if volume < s.minVolume {
        if A[0].size <= B[0].size { IdleTrades(s, t, va, vb, A[1..], B, room); }
        else { IdleTrades(s, t, va, vb, A, B[1..], room); }
      } else {
        assert A[0] in A && B[0] in B;
        IdleTrade(s, t, A[0], B[0]);
        var next := if TradeAt(s, A[0], B[0]).net > 0.0 then room - 1 else room;
        IdleTrades(s, t, va, vb, Deplete(A, volume), Deplete(B, volume), next);
      }
    }
  }

  lemma IdleTrade(s: Settings, t: Terms, a: Ask, b: Ask)
    requires Aligned(s, t) && t.bps <= 0
    requires FallbackIdle(t, a.venue, s.fallbackA) && FallbackIdle(t, b.venue, s.fallbackB)
    ensures TradeAt(s, a, b) == TradeAt(s.(fallbackA := 0.0, fallbackB := 0.0), a, b)
  {
    hide LegFee;
  }

  // On all pairs of books of two venues: exactly when no leg can be charged a fallback.
  lemma AgreeEverywhereIff(s: Settings, t: Terms, va: Venue, vb: Venue)
    requires Aligned(s, t)
    ensures (forall lot, a, b :: Book(lot, a) && Book(lot, b) ==> Agree(s, t, a, b, va, vb, |a| + |b|))
       <==> FallbackIdle(t, va, s.fallbackA) && FallbackIdle(t, vb, s.fallbackB)
  {
    hide Agree, Book;
    if FallbackIdle(t, va, s.fallbackA) && FallbackIdle(t, vb, s.fallbackB) {
      forall lot, a, b | Book(lot, a) && Book(lot, b) ensures Agree(s, t, a, b, va, vb, |a| + |b|) {
        ProbeAndAnalyzerAgree(s, t, lot, a, b, va, vb, |a| + |b|);
      }
    } else if !FallbackIdle(t, va, s.fallbackA) {
      FallbackHidesTrade(s, t, va, vb, s.fallbackA, true);
      assert Book(1.0, EdgeBook(s.fallbackA)) && Book(1.0, FREE_BOOK);
    } else {
      FallbackHidesTrade(s, t, va, vb, s.fallbackB, false);
      assert Book(1.0, EdgeBook(s.fallbackB)) && Book(1.0, FREE_BOOK);
    }
  }

  // A price at which the fallback just eats what a free other leg leaves.
  function EdgeBook(fallback: real): seq<Level>
    requires fallback > 0.0
  {
    [Level(1.0 / (1.0 + fallback), 1.0)]
  }

  const FREE_BOOK := [Level(0.0, 1.0)]

  lemma FallbackHidesTrade(s: Settings, t: Terms, va: Venue, vb: Venue, fallback: real, first: bool)
    requires Aligned(s, t) && fallback == (if first then s.fallbackA else s.fallbackB)
    requires !FallbackIdle(t, if first then va else vb, fallback)
    ensures fallback > 0.0 && Book(1.0, EdgeBook(fallback)) && Book(1.0, FREE_BOOK)
    ensures if first then !Agree(s, t, EdgeBook(fallback), FREE_BOOK, va, vb, 2)
            else !Agree(s, t, FREE_BOOK, EdgeBook(fallback), va, vb, 2)
  {
    hide Walk, Trades, TradeAt, AsTrades, Tag, SortByPrice, Book;
    EdgeFacts(fallback);
    SortOfAscending(EdgeBook(fallback));
    SortOfAscending(FREE_BOOK);
    var a, b := if first then EdgeBook(fallback) else FREE_BOOK, if first then FREE_BOOK else EdgeBook(fallback);
    var A, B := Tag(a, va), Tag(b, vb);
    OneTrade(s, t, A[0], B[0], fallback, first);
    assert A == [A[0]] && B == [B[0]];
    PairRound(t, A, B);
    TradesRound(s, A, B, 2);
    assert Deplete(A, 1.0) == [] && Deplete(B, 1.0) == [];
    TradesRound(s, [], [], 2);
  }

  lemma EdgeFacts(fallback: real)
    requires fallback > 0.0
    ensures Book(1.0, EdgeBook(fallback)) && Book(1.0, FREE_BOOK)
    ensures Ascending(EdgeBook(fallback)) && Ascending(FREE_BOOK)
    ensures var p := EdgeBook(fallback)[0].price; 0.0 < p < 1.0 && p + p * fallback == 1.0
  {
    var p := 1.0 / (1.0 + fallback);
    assert p * (1.0 + fallback) == 1.0;
    SignOfProduct(p, 1.0 + fallback);
    ProductPositive(p, fallback);
    assert 1.0 == Lots(1, 1.0);
  }

  // The probe takes this pair; the analyzer's fallback leaves it nothing.
  lemma OneTrade(s: Settings, t: Terms, a: Ask, b: Ask, fallback: real, first: bool)
    requires Aligned(s, t) && t.bps <= 0 && fallback == (if first then s.fallbackA else s.fallbackB) && fallback > 0.0
    requires a.size == b.size == 1.0 && (if first then a else b).venue == Polymarket
    requires var p := (if first then a else b).price; 0.0 < p < 1.0 && p + p * fallback == 1.0
    requires (if first then b else a).price == 0.0
    ensures PairMargin(t, a, b, 1.0) > 0.0 && TradeAt(s, a, b).net == 0.0
  {
    hide Quadratic;
    FreeAtZero(TakerRate(a.venue, t.bps), 1.0);
    FreeAtZero(TakerRate(b.venue, t.bps), 1.0);
    ZeroRate(1.0, a.price);
    ZeroRate(1.0, b.price);
    FeeBracket(a.venue, t.bps, a.price, 1.0);
    FeeBracket(b.venue, t.bps, b.price, 1.0);
  }

  // Rounding makes the prefix strict: a sliver at the top of the book costs a whole cent,
  // the probe stops there, and the analyzer goes on to a profitable hundred contracts.
  const SLIVER_BOOK := [Level(0.5, 0.1), Level(0.5, 100.0)]
  const DEEP_BOOK := [Level(0.465, 100.1)]

  lemma RoundingHidesTrades()
    ensures var t := Terms(Charged, 500, 1.0);
            var s := Settings(Charged, 500, 0.0, false, 0.0, 0.0);
            var A, B := Tag(SLIVER_BOOK, Kalshi), Tag(DEEP_BOOK, Polymarket);
            && Walk(t, [A, B]) == []
            && |Trades(s, A, B, 3)| == 1 && Trades(s, A, B, 3)[0].net > 0.5
  {
    hide Walk, Trades, TradeAt, Tag;
    var t := Terms(Charged, 500, 1.0);
    var s := Settings(Charged, 500, 0.0, false, 0.0, 0.0);
    var A, B := Tag(SLIVER_BOOK, Kalshi), Tag(DEEP_BOOK, Polymarket);
    assert A == [Ask(0.5, 0.1, Kalshi), Ask(0.5, 100.0, Kalshi)] && B == [Ask(0.465, 100.1, Polymarket)];
    SliverFees(t);
    PairRound(t, A, B);
    TradeIsSlice(s, t, A[0], B[0]);
    TradesRound(s, A, B, 3);
    var A1, B1 := [Ask(0.5, 100.0, Kalshi)], [Ask(0.465, 100.0, Polymarket)];
    assert Deplete(A, 0.1) == A1 && Deplete(B, 0.1) == B1;
    TradeIsSlice(s, t, A1[0], B1[0]);
    TradesRound(s, A1, B1, 3);
    assert Deplete(A1, 100.0) == [];
    TradesRound(s, [], Deplete(B1, 100.0), 2);
  }

  lemma SliverFees(t: Terms)
    requires t == Terms(Charged, 500, 1.0)
    ensures PairMargin(t, Ask(0.5, 0.1, Kalshi), Ask(0.465, 100.1, Polymarket), 0.1) <= 0.0
    ensures PairMargin(t, Ask(0.5, 100.0, Kalshi), Ask(0.465, 100.0, Polymarket), 100.0) > 0.5
  {
    assert TakerFee(Kalshi, 500, 0.5, 0.1) == 0.01;
    FeeBracket(Polymarket, 500, 0.465, 0.1);
    assert TakerFee(Kalshi, 500, 0.5, 100.0) == 1.75;
    FeeBracket(Polymarket, 500, 0.465, 100.0);
    assert RawTakerFee(Polymarket, 500, 0.465, 100.0) == 1.243875;
  }
}
