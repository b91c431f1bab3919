/** The simulated market execution: greedy fills of both books, cut back so that both
    legs trade the same size. */
module MockExecution {
  import opened Ladders
  import opened VenueFees
  import opened Wrappers

  // ------------------------------------------------------------ descending books

  function Negate(ls: seq<Level>): (ns: seq<Level>)
    ensures |ns| == |ls|
    ensures forall i :: 0 <= i < |ls| ==> ns[i] == Level(-ls[i].price, ls[i].size)
  {
    if ls == [] then [] else [Level(-ls[0].price, ls[0].size)] + Negate(ls[1..])
  }

  function SortDescending(ls: seq<Level>): seq<Level> { Negate(SortByPrice(Negate(ls))) }

  lemma {:induction false} NegateMeasures(ls: seq<Level>)
    ensures Depth(Negate(ls)) == Depth(ls)
    ensures Notional(Negate(ls)) == -Notional(ls)
    ensures TotalSize(Negate(ls)) == TotalSize(ls)
  {
    if ls != [] {
      NegateMeasures(ls[1..]);
      assert Negate(ls)[1..] == Negate(ls[1..]);
    }
  }

  lemma {:induction false} FillsOfNegated(ls: seq<Level>, n: real)
    ensures Fills(Negate(ls), n) == Negate(Fills(ls, n))
  {
    if ls != [] && n > 0.0 {
      assert Negate(ls)[1..] == Negate(ls[1..]);
      FillsOfNegated(ls[1..], n - Min(ls[0].size, n));
      FillsOfNegated(ls[1..], n);
    }
  }

  lemma {:induction false} AllocationOfNegated(ls: seq<Level>, x: seq<real>)
    requires |x| == |ls|
    ensures AllocationCost(Negate(ls), x) == -AllocationCost(ls, x)
  {
    if ls != [] {
      AllocationOfNegated(ls[1..], x[1..]);
      assert Negate(ls)[1..] == Negate(ls[1..]);
    }
  }

  // No way of selling the same size into the bids brings in more than the greedy fill.
  lemma GreedySellsDearest(bids: seq<Level>, x: seq<real>)
    requires Feasible(bids, x)
    ensures 0.0 <= Sum(x) <= Depth(bids)
    ensures AllocationCost(bids, x) <= Notional(Fills(SortDescending(bids), Sum(x)))
  {
    hide Fills, Notional, AllocationCost, SortByPrice, Depth;
    var sorted := SortByPrice(Negate(bids));
    assert Feasible(Negate(bids), x);
    GreedyIsCheapest(Negate(bids), x);
    NegateMeasures(bids);
    AllocationOfNegated(bids, x);
    FillsOfNegated(sorted, Sum(x));
    NegateMeasures(Fills(sorted, Sum(x)));
  }

  // ------------------------------------------------------------------- the loops

  // Takes from the levels in the order given until the target is met.
  method TakeLevels(levels: seq<Level>, target: real) returns (fills: seq<Level>, filled: real)
    ensures fills == Fills(levels, target)
    ensures filled == TotalSize(fills)
  {
    fills := [];
    var remaining := target;
    assert levels[0..] == levels;
    for i := 0 to |levels|
      invariant fills + Fills(levels[i..], remaining) == Fills(levels, target)
      invariant target - remaining == TotalSize(fills)
    {
      if remaining <= 0.0 {
        assert fills + [] == fills;
        return fills, target - remaining;
      }
      var take := Min(levels[i].size, remaining);
      assert levels[i..][0] == levels[i] && levels[i..][1..] == levels[i + 1..];
      if take > 0.0 {
        var fill := Level(levels[i].price, take);
        AppendFill(fills, fill, Fills(levels[i + 1..], remaining - take));
        fills := fills + [fill];
        remaining := remaining - take;
      }
    }
    assert fills + [] == fills;
    filled := target - remaining;
  }

  lemma AppendFill(fills: seq<Level>, fill: Level, rest: seq<Level>)
    ensures fills + ([fill] + rest) == (fills + [fill]) + rest
    ensures TotalSize(fills + [fill]) == TotalSize(fills) + fill.size
  {
    TotalAppend(fills, fill);
  }

  lemma {:induction false} TotalAppend(fills: seq<Level>, fill: Level)
    ensures TotalSize(fills + [fill]) == TotalSize(fills) + fill.size
  {
    if fills != [] {
      assert (fills + [fill])[1..] == fills[1..] + [fill];
      TotalAppend(fills[1..], fill);
    }
  }

  method FillFromAsks(asks: seq<Level>, target: real) returns (fills: seq<Level>, filled: real)
    ensures fills == Fills(SortByPrice(asks), target)
    ensures filled == TotalSize(fills)
    ensures target >= 0.0 ==> filled == Min(target, Depth(asks))
  {
    fills, filled := TakeLevels(SortByPrice(asks), target);
    SortMeasures(asks, 0.0);
    if target >= 0.0 { FillsTotal(SortByPrice(asks), target); }
  }

  method FillFromBids(bids: seq<Level>, target: real) returns (fills: seq<Level>, filled: real)
    ensures fills == Fills(SortDescending(bids), target)
    ensures filled == TotalSize(fills)
    ensures target >= 0.0 ==> filled == Min(target, Depth(bids))
  {
    fills, filled := TakeLevels(SortDescending(bids), target);
    DescendingDepth(bids);
    if target >= 0.0 { FillsTotal(SortDescending(bids), target); }
  }

  lemma DescendingDepth(bids: seq<Level>)
    ensures Depth(SortDescending(bids)) == Depth(bids)
  {
    NegateMeasures(bids);
    NegateMeasures(SortByPrice(Negate(bids)));
    SortMeasures(Negate(bids), 0.0);
  }

  method TruncateFills(fills: seq<Level>, target: real) returns (out: seq<Level>)
    ensures out == Truncate(fills, target)
  {
    if fills == [] { return []; }
    out := [];
    var remaining := target;
    assert fills[0..] == fills;
    for i := 0 to |fills|
      invariant out + Truncate(fills[i..], remaining) == Truncate(fills, target)
    {
      if remaining <= 0.0 {
        assert out + [] == out;
        return;
      }
      var cut := Level(fills[i].price, Min(fills[i].size, remaining));
      assert fills[i..][0] == fills[i] && fills[i..][1..] == fills[i + 1..];
      AppendFill(out, cut, Truncate(fills[i + 1..], remaining - cut.size));
      out := out + [cut];
      remaining := remaining - cut.size;
    }
    assert out + [] == out;
  }

  // Fees of a leg, fill by fill; an unknown platform charges nothing.
  function FillFeesOn(platform: Option<Venue>, bps: int, fills: seq<Level>): real {
    if fills == [] || platform.None? then 0.0
    else TakerFee(platform.value, bps, fills[0].price, fills[0].size) + FillFeesOn(platform, bps, fills[1..])
  }

  // What the fills come to on the fee parabola.
  function Parabolas(fills: seq<Level>): real {
    if fills == [] then 0.0
    else Curve(fills[0].price, fills[0].size) + Parabolas(fills[1..])
  }

  // A leg's fees in the venues' own figures, each fill rounded on its own: on Kalshi up to
  // whole cents ...
  lemma {:induction false} KalshiFillFees(bps: int, fills: seq<Level>)
    requires forall f :: f in fills ==> f.size > 0.0 && 0.0 <= f.price <= 1.0
    ensures var cents := FillFeesOn(Some(Kalshi), bps, fills) * 100.0;
            cents - |fills| as real <= 7.0 * Parabolas(fills) <= cents
  {
    hide TakerFee, Curve;
    if fills != [] {
      assert fills[0] in fills;
      KalshiSchedule(bps, fills[0].price, fills[0].size);
      KalshiFillFees(bps, fills[1..]);
    }
  }

  // ... on Polymarket to the nearest hundred-thousandth, and none on an unknown platform.
  lemma {:induction false} PolymarketFillFees(bps: int, fills: seq<Level>)
    requires forall f :: f in fills ==> f.size > 0.0 && 0.0 <= f.price <= 1.0
    ensures var units, owed := FillFeesOn(Some(Polymarket), bps, fills) * 100000.0,
        10.0 * bps as real * Parabolas(fills);
            if bps <= 0 then units == 0.0 else units - |fills| as real <= owed <= units + 0.5 * |fills| as real
    ensures FillFeesOn(None, bps, fills) == 0.0
  {
    hide TakerFee, Curve;
    if fills != [] {
      var f := fills[0];
      assert f in fills;
      PolymarketSchedule(bps, f.price, f.size);
      PolymarketFillFees(bps, fills[1..]);
      OwedNonNegative(bps, f.price, f.size);
      Distribute(10.0 * bps as real, Curve(f.price, f.size), Parabolas(fills[1..]));
    }
  }

  lemma Distribute(a: real, x: real, y: real)
    ensures a * (x + y) == a * x + a * y
  {
  }

  function AvgPrice(fills: seq<Level>): real {
    if fills == [] then 0.0
    else if TotalSize(fills) > 0.0 then Notional(fills) / TotalSize(fills) else 0.0
  }

  datatype SimResult =
    | EmptyOrderbook
    | NoLiquidity
    | Executed(filled: real, avgBuy: real, avgSell: real, buyFees: real, sellFees: real,
               gross: real, net: real, margin: real)

  method ExecuteMarket(buyPlatform: Option<Venue>, sellPlatform: Option<Venue>, asks: seq<Level>, bids: seq<Level>,
                       bps: int, requested: real)
    returns (r: SimResult, ghost buys: seq<Level>, ghost sells: seq<Level>)
    ensures r.EmptyOrderbook? <==> asks == [] || bids == []
    ensures r.NoLiquidity? <==> asks != [] && bids != [] && Min(requested, Min(Depth(asks), Depth(bids))) <= 0.0
    ensures r.Executed? ==>
      && r.filled == Min(requested, Min(Depth(asks), Depth(bids))) > 0.0
      && buys == Fills(SortByPrice(asks), r.filled) && sells == Fills(SortDescending(bids), r.filled)
      && TotalSize(buys) == TotalSize(sells) == r.filled
      && r.avgBuy * r.filled == Notional(buys) && r.avgSell * r.filled == Notional(sells)
      && r.gross == Notional(sells) - Notional(buys)
      && r.buyFees == FillFeesOn(buyPlatform, bps, buys) && r.sellFees == FillFeesOn(sellPlatform, bps, sells)
      && r.net == r.gross - r.buyFees - r.sellFees
      && r.margin == (if Notional(buys) > 0.0 then r.net / Notional(buys) else 0.0)
  {
    hide Fills, Truncate, SortByPrice, SortDescending, Depth, TotalSize, Notional, FillFeesOn;
    buys, sells := [], [];
    if asks == [] || bids == [] { return EmptyOrderbook, [], []; }
    var bought, buyFilled := FillFromAsks(asks, requested);
    var sold, sellFilled := FillFromBids(bids, requested);
    var filled := Min(buyFilled, sellFilled);
    if requested < 0.0 { NothingFilled(SortByPrice(asks), requested); }
    if filled <= 0.0 { return NoLiquidity, [], []; }
    bought := TruncateFills(bought, filled);
    sold := TruncateFills(sold, filled);
    TruncateOfFill(SortByPrice(asks), requested, filled);
    TruncateOfFill(SortDescending(bids), requested, filled);
    SortMeasures(asks, 0.0);
    DescendingDepth(bids);
    FillsTotal(SortByPrice(asks), filled);
    FillsTotal(SortDescending(bids), filled);
    var buyNotional, sellNotional := Notional(bought), Notional(sold);
    var buyFees, sellFees := FillFeesOn(buyPlatform, bps, bought), FillFeesOn(sellPlatform, bps, sold);
    var gross := sellNotional - buyNotional;
    var net := gross - buyFees - sellFees;
    AverageTimesSize(bought);
    AverageTimesSize(sold);
    r := Executed(filled, AvgPrice(bought), AvgPrice(sold), buyFees, sellFees, gross, net,
                  if buyNotional > 0.0 then net / buyNotional else 0.0);
    buys, sells := bought, sold;
  }

  lemma NothingFilled(ls: seq<Level>, target: real)
    requires target < 0.0
    ensures TotalSize(Fills(ls, target)) == 0.0
  {
  }

  lemma AverageTimesSize(fills: seq<Level>)
    requires TotalSize(fills) > 0.0
    ensures AvgPrice(fills) * TotalSize(fills) == Notional(fills)
  {
  }

  // Whatever levels a trader picked, buying and selling that size grosses no more than
  // the simulated trade.
  lemma GrossIsBest(asks: seq<Level>, bids: seq<Level>, x: seq<real>, y: seq<real>, n: real)
    requires Feasible(asks, x) && Feasible(bids, y) && Sum(x) == n == Sum(y)
    ensures AllocationCost(bids, y) - AllocationCost(asks, x)
         <= Notional(Fills(SortDescending(bids), n)) - Notional(Fills(SortByPrice(asks), n))
  {
    hide Fills, Notional, AllocationCost, SortByPrice, SortDescending, Depth;
    GreedyIsCheapest(asks, x);
    CostIsNotional(SortByPrice(asks), n);
    GreedySellsDearest(bids, y);
  }

  lemma CostIsNotional(ls: seq<Level>, n: real)
    ensures Cost(ls, n) == Notional(Fills(ls, n))
  {
  }
}
