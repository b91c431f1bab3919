/** Why stopping where the basket walk stops is right: with fees taken before rounding,
    no equal-size basket, however it picks its levels, nets more than the walk. */
module BasketOptimality {
  import opened Ladders
  import opened VenueFees
  import opened BasketWalk

  // ------------------------------------------------------------- what is assumed

  // Book sizes are whole lots, and a lot is larger than the exhaustion threshold:
  // then the threshold test is an exact zero test.
  function Lots(k: int, lot: real): real { k as real * lot }

  ghost predicate OnLot(x: real, lot: real) { exists k: int :: x == Lots(k, lot) }

  ghost predicate LegOnLots(lad: seq<Ask>, lot: real) {
    lot > RESIDUE && forall i :: 0 <= i < |lad| ==> OnLot(lad[i].size, lot)
  }

  // One venue per leg, ascending, with probability prices: what a single book gives.
  ghost predicate SingleVenue(lad: seq<Ask>) {
    && (forall i :: 0 <= i < |lad| ==> lad[i].venue == lad[0].venue && 0.0 <= lad[i].price <= 1.0)
    && (forall i, j :: 0 <= i < j < |lad| ==> lad[i].price <= lad[j].price)
  }

  // What one unit costs a taker, with or without its raw fee.
  function UnitCost(bps: int, withFees: bool, a: Ask): real {
    if withFees then Effective(TakerRate(a.venue, bps), a.price) else a.price
  }

  function Offers(bps: int, withFees: bool, lad: seq<Ask>): (ls: seq<Level>)
    ensures |ls| == |lad|
    ensures forall i :: 0 <= i < |lad| ==> ls[i] == Level(UnitCost(bps, withFees, lad[i]), lad[i].size)
  {
    if lad == [] then []
    else [Level(UnitCost(bps, withFees, lad[0]), lad[0].size)] + Offers(bps, withFees, lad[1..])
  }

  ghost predicate DearerLater(bps: int, lad: seq<Ask>) { Ascending(Offers(bps, true, lad)) }

  // On one venue, ascending prices stay ascending after fees.
  lemma SingleVenueDearerLater(bps: int, lad: seq<Ask>)
    requires SingleVenue(lad) && bps <= 10000
    ensures DearerLater(bps, lad)
  {
    forall i, j | 0 <= i < j < |lad|
      ensures Offers(bps, true, lad)[i].price <= Offers(bps, true, lad)[j].price
    {
      EffectiveMonotone(TakerRate(lad[0].venue, bps), lad[i].price, lad[j].price);
    }
  }

  ghost predicate GoodLeg(bps: int, lot: real, lad: seq<Ask>) {
    DearerLater(bps, lad) && LegOnLots(lad, lot)
  }

  ghost predicate GoodLegs(bps: int, lot: real, lads: seq<seq<Ask>>) {
    forall j :: 0 <= j < |lads| ==> GoodLeg(bps, lot, lads[j])
  }

  ghost predicate Deep(lads: seq<seq<Ask>>, n: real) {
    forall j :: 0 <= j < |lads| ==> n <= Depth(Offers(0, false, lads[j]))
  }

  lemma {:induction false} DepthIgnoresFees(bps: int, withFees: bool, lad: seq<Ask>)
    ensures Depth(Offers(bps, withFees, lad)) == Depth(Offers(0, false, lad))
  {
    hide UnitCost;
    if lad != [] { DepthIgnoresFees(bps, withFees, lad[1..]); }
  }

  // ------------------------------------------------------- one leg, one slice

  lemma LotsSubtract(x: real, y: real, lot: real)
    requires OnLot(x, lot) && OnLot(y, lot) && lot > RESIDUE
    ensures OnLot(x - y, lot)
    ensures x - y <= RESIDUE ==> x - y <= 0.0
  {
    var a: int :| x == Lots(a, lot);
    var b: int :| y == Lots(b, lot);
    assert x - y == Lots(a - b, lot);
    if a - b >= 1 { MulMono(1.0, (a - b) as real, lot); }
    else { MulMono((a - b) as real, 0.0, lot); }
  }

  // Taking t off the head either finishes it exactly or leaves it standing.
  lemma ConsumeOneGood(bps: int, lot: real, lad: seq<Ask>, t: real)
    requires GoodLeg(bps, lot, lad) && lad != [] && OnLot(t, lot) && 0.0 < t <= lad[0].size
    ensures GoodLeg(bps, lot, ConsumeOne(lad, t))
    ensures lad[0].size - t <= RESIDUE ==> lad[0].size == t
  {
    LotsSubtract(lad[0].size, t, lot);
    var rest := ConsumeOne(lad, t);
    var before, after := Offers(bps, true, lad), Offers(bps, true, rest);
    if lad[0].size - t <= RESIDUE {
      assert after == before[1..];
    } else {
      assert forall i :: 0 <= i < |after| ==> after[i].price == before[i].price;
    }
  }

  lemma SkipOneGood(bps: int, lot: real, lad: seq<Ask>)
    requires GoodLeg(bps, lot, lad) && lad != []
    ensures GoodLeg(bps, lot, SkipOne(lad))
  {
    var rest := SkipOne(lad);
    if rest != lad { assert Offers(bps, true, rest) == Offers(bps, true, lad)[1..]; }
  }

  // The greedy cost of n units splits into the slice and the greedy cost of the rest.
  lemma SliceSplitsLeg(bps: int, withFees: bool, lad: seq<Ask>, t: real, n: real)
    requires lad != [] && 0.0 < t <= lad[0].size && t <= n
    requires lad[0].size - t <= RESIDUE ==> lad[0].size == t
    ensures Cost(Offers(bps, withFees, lad), n)
         == UnitCost(bps, withFees, lad[0]) * t + Cost(Offers(bps, withFees, ConsumeOne(lad, t)), n - t)
    ensures Depth(Offers(bps, withFees, lad)) == t + Depth(Offers(bps, withFees, ConsumeOne(lad, t)))
  {
    hide Effective, Cost;
    var whole := Offers(bps, withFees, lad);
    var rest := Offers(bps, withFees, ConsumeOne(lad, t));
    assert Offers(bps, withFees, lad[1..]) == whole[1..];
    if lad[0].size == t {
      assert rest == whole[1..];
      CostOfHead(whole, n, t);
    } else {
      assert rest[1..] == whole[1..];
      SplitStanding(whole, rest, t, n);
    }
  }

  lemma SplitStanding(whole: seq<Level>, rest: seq<Level>, t: real, n: real)
    requires whole != [] && rest != [] && rest[1..] == whole[1..]
    requires rest[0] == Level(whole[0].price, whole[0].size - t)
    requires 0.0 < t < whole[0].size && t <= n
    ensures Cost(whole, n) == whole[0].price * t + Cost(rest, n - t)
  {
    hide Cost;
    var x := Min(whole[0].size, n);
    CostOfHead(whole, n, x);
    if n > t {
      CostOfHead(rest, n - t, x - t);
      SplitHead(whole[0].price, x, t);
    } else {
      FreeNothing(rest);
      FreeNothing(whole[1..]);
    }
  }

  lemma SplitHead(p: real, x: real, t: real)
    ensures p * x == p * t + p * (x - t)
  {
  }

  lemma SkipKeepsLeg(bps: int, withFees: bool, lad: seq<Ask>, n: real)
    requires lad != [] && n >= 0.0
    ensures Cost(Offers(bps, withFees, SkipOne(lad)), n) == Cost(Offers(bps, withFees, lad), n)
    ensures Depth(Offers(bps, withFees, SkipOne(lad))) == Depth(Offers(bps, withFees, lad))
  {
    hide UnitCost;
    var whole := Offers(bps, withFees, lad);
    assert Offers(bps, withFees, lad[1..]) == whole[1..];
    if lad[0].size <= 0.0 && n <= 0.0 { FreeNothing(whole); }
  }

  // Every unit of an ascending ladder costs at least its head.
  lemma CostAtLeastHead(ls: seq<Level>, n: real)
    requires ls != [] && Ascending(ls) && 0.0 <= n <= Depth(ls)
    ensures Cost(ls, n) >= ls[0].price * n
  {
    hide Cost, Surplus, AllocationCost, Depth;
    TakesFeasible(ls, n);
    WeakDuality(ls, Takes(ls, n), ls[0].price);
    SurplusZero(ls, ls[0].price);
  }

  // ----------------------------------------------------------- all legs at once

  function BasketCost(bps: int, lads: seq<seq<Ask>>, n: real): real {
    if lads == [] then 0.0 else Cost(Offers(bps, true, lads[0]), n) + BasketCost(bps, lads[1..], n)
  }

  function SumUnits(bps: int, levels: seq<Ask>): real {
    if levels == [] then 0.0 else UnitCost(bps, true, levels[0]) + SumUnits(bps, levels[1..])
  }

  lemma {:induction false} MarginIsLinear(t: Terms, levels: seq<Ask>, size: real)
    requires t.fees == Unrounded
    ensures Margin(t, levels, size) == (t.payout - SumUnits(t.bps, levels)) * size
  {
    FeesAreLinear(t, levels, size);
    MarginAlgebra(t.payout, SumPrices(levels), SumUnits(t.bps, levels), SumFees(t, levels, size), size);
  }

  lemma MarginAlgebra(payout: real, prices: real, units: real, fees: real, size: real)
    requires prices * size + fees == units * size
    ensures (payout - prices) * size - fees == (payout - units) * size
  {
  }

  lemma {:induction false} FeesAreLinear(t: Terms, levels: seq<Ask>, size: real)
    requires t.fees == Unrounded
    ensures SumPrices(levels) * size + SumFees(t, levels, size) == SumUnits(t.bps, levels) * size
  {
    hide RawTakerFee, Effective;
    if levels != [] {
      FeesAreLinear(t, levels[1..], size);
      RawFeeLinear(levels[0].venue, t.bps, levels[0].price, size);
      AddTimes(levels[0].price, SumPrices(levels[1..]), size);
      AddTimes(UnitCost(t.bps, true, levels[0]), SumUnits(t.bps, levels[1..]), size);
    }
  }

  lemma AddTimes(a: real, b: real, c: real)
    ensures (a + b) * c == a * c + b * c
  {
  }

  lemma {:induction false} BasketAtLeastHeads(bps: int, lot: real, lads: seq<seq<Ask>>, n: real)
    requires AllOpen(lads) && GoodLegs(bps, lot, lads) && n >= 0.0 && Deep(lads, n)
    ensures BasketCost(bps, lads, n) >= SumUnits(bps, Heads(lads)) * n
  {
    hide UnitCost, Cost, GoodLeg;
    if lads != [] {
      assert GoodLeg(bps, lot, lads[0]);
      HeadBound(bps, lot, lads[0], n);
      BasketAtLeastHeads(bps, lot, lads[1..], n);
      assert Heads(lads)[1..] == Heads(lads[1..]);
      AddTimes(UnitCost(bps, true, lads[0][0]), SumUnits(bps, Heads(lads[1..])), n);
    }
  }

  lemma HeadBound(bps: int, lot: real, lad: seq<Ask>, n: real)
    requires GoodLeg(bps, lot, lad) && lad != [] && 0.0 <= n <= Depth(Offers(0, false, lad))
    ensures Cost(Offers(bps, true, lad), n) >= UnitCost(bps, true, lad[0]) * n
  {
    hide UnitCost, Cost, Depth;
    DepthIgnoresFees(bps, true, lad);
    CostAtLeastHead(Offers(bps, true, lad), n);
  }

  ghost predicate ExactHeads(lads: seq<seq<Ask>>, t: real)
    requires AllOpen(lads)
  {
    forall j :: 0 <= j < |lads| ==> t <= lads[j][0].size && (lads[j][0].size - t <= RESIDUE ==> lads[j][0].size == t)
  }

  lemma {:induction false} SliceSplitsBasket(bps: int, lads: seq<seq<Ask>>, t: real, n: real)
    requires AllOpen(lads) && 0.0 < t <= n && ExactHeads(lads, t)
    ensures BasketCost(bps, lads, n) == SumUnits(bps, Heads(lads)) * t + BasketCost(bps, Consume(lads, t), n - t)
  {
    hide UnitCost, Cost, ConsumeOne, Depth, Offers;
    if lads != [] {
      SliceSplitsLeg(bps, true, lads[0], t, n);
      SliceSplitsBasket(bps, lads[1..], t, n);
      assert Heads(lads)[1..] == Heads(lads[1..]);
      assert Consume(lads, t)[1..] == Consume(lads[1..], t);
      AddTimes(UnitCost(bps, true, lads[0][0]), SumUnits(bps, Heads(lads[1..])), t);
    }
  }

  lemma SliceKeepsGood(bps: int, lot: real, lads: seq<seq<Ask>>, t: real)
    requires AllOpen(lads) && GoodLegs(bps, lot, lads) && OnLot(t, lot) && 0.0 < t
    requires forall j :: 0 <= j < |lads| ==> t <= lads[j][0].size
    ensures GoodLegs(bps, lot, Consume(lads, t))
    ensures ExactHeads(lads, t)
  {
    hide GoodLeg, ConsumeOne;
    forall j | 0 <= j < |lads|
      ensures GoodLeg(bps, lot, Consume(lads, t)[j])
      ensures lads[j][0].size - t <= RESIDUE ==> lads[j][0].size == t
    {
      ConsumeOneGood(bps, lot, lads[j], t);
    }
  }

  lemma SliceKeepsDeep(lads: seq<seq<Ask>>, t: real, n: real)
    requires AllOpen(lads) && 0.0 < t <= n && ExactHeads(lads, t)
    ensures Deep(lads, n) <==> Deep(Consume(lads, t), n - t)
  {
    hide ConsumeOne, Depth, Cost, Offers;
    forall j | 0 <= j < |lads|
      ensures Depth(Offers(0, false, lads[j])) == t + Depth(Offers(0, false, Consume(lads, t)[j]))
    {
      SliceSplitsLeg(0, false, lads[j], t, n);
    }
  }

  lemma {:induction false} SkipKeepsBasket(bps: int, lads: seq<seq<Ask>>, n: real)
    requires AllOpen(lads) && n >= 0.0
    ensures BasketCost(bps, Skip(lads), n) == BasketCost(bps, lads, n)
  {
    hide Cost, SkipOne, UnitCost;
    if lads != [] {
      SkipKeepsLeg(bps, true, lads[0], n);
      SkipKeepsBasket(bps, lads[1..], n);
      assert Skip(lads)[1..] == Skip(lads[1..]);
    }
  }

  lemma SkipKeepsGood(bps: int, lot: real, lads: seq<seq<Ask>>, n: real)
    requires AllOpen(lads) && GoodLegs(bps, lot, lads) && n >= 0.0
    ensures GoodLegs(bps, lot, Skip(lads))
    ensures Deep(Skip(lads), n) <==> Deep(lads, n)
  {
    hide GoodLeg, SkipOne, Depth, Cost, Offers;
    forall j | 0 <= j < |lads|
      ensures GoodLeg(bps, lot, Skip(lads)[j])
      ensures Depth(Offers(0, false, Skip(lads)[j])) == Depth(Offers(0, false, lads[j]))
    {
      SkipOneGood(bps, lot, lads[j]);
      SkipKeepsLeg(0, false, lads[j], n);
    }
  }

  // --------------------------------------------------------------- the theorems

  lemma BasketOfNothing(bps: int, lads: seq<seq<Ask>>)
    ensures BasketCost(bps, lads, 0.0) == 0.0
  {
    if lads != [] {
      FreeNothing(Offers(bps, true, lads[0]));
      BasketOfNothing(bps, lads[1..]);
    }
  }

  lemma MinSizeOnLot(bps: int, lot: real, lads: seq<seq<Ask>>)
    requires lads != [] && AllOpen(lads) && GoodLegs(bps, lot, lads)
    ensures OnLot(MinSize(Heads(lads)), lot)
    ensures forall j :: 0 <= j < |lads| ==> MinSize(Heads(lads)) <= lads[j][0].size
  {
    var heads := Heads(lads);
    var i :| 0 <= i < |heads| && heads[i].size == MinSize(heads);
    assert GoodLeg(bps, lot, lads[i]);
    forall j | 0 <= j < |lads| ensures MinSize(heads) <= lads[j][0].size { assert heads[j] in heads; }
  }

  // No size beats the walk, even with every leg bought as cheaply as its book allows.
  lemma {:induction false} WalkBeatsEverySize(t: Terms, lot: real, lads: seq<seq<Ask>>, n: real)
    requires t.fees == Unrounded && lads != []
    requires GoodLegs(t.bps, lot, lads) && n >= 0.0 && Deep(lads, n)
    ensures t.payout * n - BasketCost(t.bps, lads, n) <= WalkMargin(t, Walk(t, lads))
    decreases LevelsLeft(lads)
  {
    hide GoodLeg, Margin, SumUnits, BasketCost, Consume, Skip, Heads, MinSize, Walk, Deep, LevelsLeft;
    if !AllOpen(lads) {
      WalkOver(t, lads);
      EmptyLegBlocks(lads, n);
      BasketOfNothing(t.bps, lads);
    } else {
      WalkRound(t, lads);
      StepShrinks(lads);
      var heads := Heads(lads);
      var size := MinSize(heads);
      if size <= 0.0 {
        SkipKeepsGood(t.bps, lot, lads, n);
        SkipKeepsBasket(t.bps, lads, n);
        WalkBeatsEverySize(t, lot, Skip(lads), n);
      } else {
        MarginIsLinear(t, heads, size);
        MinSizeOnLot(t.bps, lot, lads);
        var unit := t.payout - SumUnits(t.bps, heads);
        if n <= size || Margin(t, heads, size) <= 0.0 {
          BasketAtLeastHeads(t.bps, lot, lads, n);
          MarginsPositive(t, Walk(t, lads));
          SmallBasket(t, lads, unit, size, n);
        } else {
          SliceKeepsGood(t.bps, lot, lads, size);
          SliceKeepsDeep(lads, size, n);
          SliceSplitsBasket(t.bps, lads, size, n);
          WalkBeatsEverySize(t, lot, Consume(lads, size), n - size);
          WalkMarginCons(t, Slice(heads, size), Walk(t, Consume(lads, size)));
          BigBasket(t.payout, SumUnits(t.bps, heads), size, n);
        }
      }
    }
  }

  lemma EmptyLegBlocks(lads: seq<seq<Ask>>, n: real)
    requires !AllOpen(lads) && n >= 0.0 && Deep(lads, n)
    ensures n == 0.0
  {
    var j :| 0 <= j < |lads| && lads[j] == [];
    assert n <= Depth(Offers(0, false, lads[j]));
  }

  lemma WalkMarginCons(t: Terms, s: Slice, rest: seq<Slice>)
    ensures WalkMargin(t, [s] + rest) == Margin(t, s.levels, s.size) + WalkMargin(t, rest)
    ensures WalkSize([s] + rest) == s.size + WalkSize(rest)
  {
    assert ([s] + rest)[1..] == rest;
  }

  lemma BigBasket(payout: real, units: real, size: real, n: real)
    ensures payout * n - units * size == (payout - units) * size + payout * (n - size)
  {
  }

  // A basket no larger than the next slice, or one the walk has refused.
  lemma SmallBasket(t: Terms, lads: seq<seq<Ask>>, unit: real, size: real, n: real)
    requires lads != [] && AllOpen(lads) && size == MinSize(Heads(lads)) && size > 0.0 && n >= 0.0
    requires unit == t.payout - SumUnits(t.bps, Heads(lads))
    requires Margin(t, Heads(lads), size) == unit * size
    requires BasketCost(t.bps, lads, n) >= SumUnits(t.bps, Heads(lads)) * n
    requires n <= size || Margin(t, Heads(lads), size) <= 0.0
    requires forall s :: s in Walk(t, lads) ==> s.size > 0.0 && Margin(t, s.levels, s.size) > 0.0
    ensures t.payout * n - BasketCost(t.bps, lads, n) <= WalkMargin(t, Walk(t, lads))
  {
    hide Margin, SumUnits, BasketCost, Consume, Skip, Heads, MinSize, Walk, WalkMargin;
    var slices := Walk(t, lads);
    WalkRound(t, lads);
    MarginsPositive(t, slices);
    assert t.payout * n - BasketCost(t.bps, lads, n) <= unit * n by {
      AddTimes(unit, SumUnits(t.bps, Heads(lads)), n);
    }
    if Margin(t, Heads(lads), size) <= 0.0 {
      SignOfProduct(unit, size);
      MulMono(unit, 0.0, n);
    } else {
      SignOfProduct(unit, size);
      MulMono(n, size, unit);
      var rest := Walk(t, Consume(lads, size));
      WalkMarginCons(t, Slice(Heads(lads), size), rest);
      MarginsPositive(t, rest);
    }
  }

  // Whatever fees steer it, the walk pays on every leg what the greedy fill of that leg
  // costs: its raw margins add up to the raw net of the cheapest basket of its size.
  lemma {:induction false} WalkAttainsItsSize(t: Terms, lot: real, lads: seq<seq<Ask>>)
    requires lads != [] && GoodLegs(t.bps, lot, lads)
    ensures var n := WalkSize(Walk(t, lads));
            && n >= 0.0 && Deep(lads, n)
            && t.payout * n - BasketCost(t.bps, lads, n) == WalkMargin(t.(fees := Unrounded), Walk(t, lads))
    decreases LevelsLeft(lads)
  {
    hide GoodLeg, Margin, SumUnits, BasketCost, Consume, Skip, Heads, MinSize, Walk, Deep, LevelsLeft;
    var raw := t.(fees := Unrounded);
    if !AllOpen(lads) {
      WalkOver(t, lads);
      NothingIsDeep(lads);
      BasketOfNothing(t.bps, lads);
    } else {
      WalkRound(t, lads);
      StepShrinks(lads);
      var heads := Heads(lads);
      var size := MinSize(heads);
      if size <= 0.0 {
        SkipKeepsGood(t.bps, lot, lads, 0.0);
        WalkAttainsItsSize(t, lot, Skip(lads));
        SkipKeepsGood(t.bps, lot, lads, WalkSize(Walk(t, lads)));
        SkipKeepsBasket(t.bps, lads, WalkSize(Walk(t, lads)));
      } else if Margin(t, heads, size) <= 0.0 {
        NothingIsDeep(lads);
        BasketOfNothing(t.bps, lads);
      } else {
        var rest := Walk(t, Consume(lads, size));
        MinSizeOnLot(t.bps, lot, lads);
        SliceKeepsGood(t.bps, lot, lads, size);
        WalkAttainsItsSize(t, lot, Consume(lads, size));
        WalkMarginCons(raw, Slice(heads, size), rest);
        var n := size + WalkSize(rest);
        SliceKeepsDeep(lads, size, n);
        SliceSplitsBasket(t.bps, lads, size, n);
        MarginIsLinear(raw, heads, size);
        BigBasket(t.payout, SumUnits(t.bps, heads), size, n);
      }
    }
  }

  lemma NothingIsDeep(lads: seq<seq<Ask>>)
    ensures Deep(lads, 0.0)
  {
  }

  lemma DeepCons(lads: seq<seq<Ask>>, n: real)
    requires lads != []
    ensures Deep(lads, n) <==> n <= Depth(Offers(0, false, lads[0])) && Deep(lads[1..], n)
  {
    hide Depth, Offers;
    if n <= Depth(Offers(0, false, lads[0])) && Deep(lads[1..], n) {
      forall j | 0 <= j < |lads| ensures n <= Depth(Offers(0, false, lads[j])) {
        if j > 0 { assert lads[j] == lads[1..][j - 1]; }
      }
    }
    if Deep(lads, n) {
      forall j | 0 <= j < |lads[1..]| ensures n <= Depth(Offers(0, false, lads[1..][j])) {
        assert lads[1..][j] == lads[j + 1];
      }
    }
  }

  // An equal-size basket that picks x[j][i] units from level i of leg j.
  ghost predicate EqualSizeBasket(bps: int, lads: seq<seq<Ask>>, x: seq<seq<real>>, n: real) {
    |x| == |lads|
    && forall j :: 0 <= j < |lads| ==> Feasible(Offers(bps, true, lads[j]), x[j]) && Sum(x[j]) == n
  }

  // Its prices and raw fees.
  function BasketSpend(bps: int, lads: seq<seq<Ask>>, x: seq<seq<real>>): real
    requires |x| == |lads| && forall j :: 0 <= j < |lads| ==> |x[j]| == |lads[j]|
  {
    if lads == [] then 0.0
    else AllocationCost(Offers(bps, true, lads[0]), x[0]) + BasketSpend(bps, lads[1..], x[1..])
  }

  lemma {:induction false} SpendAtLeastGreedy(bps: int, lads: seq<seq<Ask>>, x: seq<seq<real>>, n: real)
    requires forall j :: 0 <= j < |lads| ==> DearerLater(bps, lads[j])
    requires EqualSizeBasket(bps, lads, x, n)
    ensures BasketSpend(bps, lads, x) >= BasketCost(bps, lads, n)
    ensures lads != [] ==> n >= 0.0
    ensures Deep(lads, n)
  {
    hide Cost, AllocationCost, Depth;
    if lads != [] {
      var offers := Offers(bps, true, lads[0]);
      assert DearerLater(bps, lads[0]);
      GreedyIsCheapest(offers, x[0]);
      SortOfAscending(offers);
      DepthIgnoresFees(bps, true, lads[0]);
      SpendAtLeastGreedy(bps, lads[1..], x[1..], n);
      DeepCons(lads, n);
    }
  }

  ghost predicate Books(lot: real, lads: seq<seq<Ask>>) {
    forall j :: 0 <= j < |lads| ==> SingleVenue(lads[j]) && LegOnLots(lads[j], lot)
  }

  // Greedy optimality: over every equal-size basket and every choice of levels.
  lemma GreedyOptimality(t: Terms, lot: real, lads: seq<seq<Ask>>, x: seq<seq<real>>, n: real)
    requires t.fees == Unrounded && t.bps <= 10000 && lads != [] && Books(lot, lads)
    requires EqualSizeBasket(t.bps, lads, x, n)
    ensures t.payout * n - BasketSpend(t.bps, lads, x) <= WalkMargin(t, Walk(t, lads))
  {
    hide SingleVenue, LegOnLots, DearerLater, Walk, BasketSpend, WalkMargin;
    forall j | 0 <= j < |lads| ensures GoodLeg(t.bps, lot, lads[j]) {
      SingleVenueDearerLater(t.bps, lads[j]);
    }
    SpendAtLeastGreedy(t.bps, lads, x, n);
    WalkBeatsEverySize(t, lot, lads, n);
  }

  // ... and the walk's own basket is such a basket, so the maximum is attained.
  lemma OptimumAttained(t: Terms, lot: real, lads: seq<seq<Ask>>) returns (x: seq<seq<real>>, n: real)
    requires t.fees == Unrounded && t.bps <= 10000 && lads != [] && Books(lot, lads)
    ensures n == WalkSize(Walk(t, lads))
    ensures EqualSizeBasket(t.bps, lads, x, n)
    ensures t.payout * n - BasketSpend(t.bps, lads, x) == WalkMargin(t, Walk(t, lads))
  {
    hide SingleVenue, LegOnLots, DearerLater, Walk, BasketSpend, WalkMargin, WalkSize;
    hide BasketCost, EqualSizeBasket, Deep, Offers, Depth;
    forall j | 0 <= j < |lads| ensures GoodLeg(t.bps, lot, lads[j]) {
      SingleVenueDearerLater(t.bps, lads[j]);
    }
    n := WalkSize(Walk(t, lads));
    WalkAttainsItsSize(t, lot, lads);
    x := GreedyPicks(t.bps, lads, n);
  }

  lemma {:induction false} GreedyPicks(bps: int, lads: seq<seq<Ask>>, n: real) returns (x: seq<seq<real>>)
    requires n >= 0.0 && Deep(lads, n)
    ensures EqualSizeBasket(bps, lads, x, n)
    ensures BasketSpend(bps, lads, x) == BasketCost(bps, lads, n)
  {
    hide Cost, AllocationCost, Depth;
    x := [];
    if lads != [] {
      DeepCons(lads, n);
      var rest := GreedyPicks(bps, lads[1..], n);
      DepthIgnoresFees(bps, true, lads[0]);
      TakesFeasible(Offers(bps, true, lads[0]), n);
      x := [Takes(Offers(bps, true, lads[0]), n)] + rest;
      assert x[1..] == rest;
    }
  }

  // The walk the code runs stops on rounded fees. What it reports still never exceeds
  // the unrounded optimum by more than half a quantum per leg and slice.
  lemma ChargedWalkBelowOptimum(t: Terms, lot: real, lads: seq<seq<Ask>>)
    requires t.fees == Charged && t.bps <= 10000 && lads != [] && Books(lot, lads)
    ensures var raw := t.(fees := Unrounded);
            var slices := Walk(t, lads);
            WalkMargin(t, slices) <= WalkMargin(raw, Walk(raw, lads))
                                   + (|lads| * |slices|) as real * (PM_QUANTUM / 2.0)
  {
    hide SingleVenue, LegOnLots, Walk, WalkMargin, WalkSize;
    var raw := t.(fees := Unrounded);
    var slices := Walk(t, lads);
    RawWalkBelowOptimum(t, lot, lads);
    forall j | 0 <= j < |lads| ensures Probabilities(lads[j]) { SingleVenueProbabilities(lads[j]); }
    WalkPrices(t, lads);
    RoundingCost(t, slices, |lads|);
  }

  lemma RawWalkBelowOptimum(t: Terms, lot: real, lads: seq<seq<Ask>>)
    requires t.bps <= 10000 && lads != [] && Books(lot, lads)
    ensures var raw := t.(fees := Unrounded);
            WalkMargin(raw, Walk(t, lads)) <= WalkMargin(raw, Walk(raw, lads))
  {
    hide SingleVenue, LegOnLots, DearerLater, Walk, WalkMargin, WalkSize;
    forall j | 0 <= j < |lads| ensures GoodLeg(t.bps, lot, lads[j]) {
      SingleVenueDearerLater(t.bps, lads[j]);
    }
    WalkAttainsItsSize(t, lot, lads);
    WalkBeatsEverySize(t.(fees := Unrounded), lot, lads, WalkSize(Walk(t, lads)));
  }

  ghost predicate Probabilities(levels: seq<Ask>) {
    forall i :: 0 <= i < |levels| ==> 0.0 <= levels[i].price <= 1.0
  }

  lemma SingleVenueProbabilities(lad: seq<Ask>)
    requires SingleVenue(lad)
    ensures Probabilities(lad)
  {
  }

  // Every price the walk pays is a price of its books.
  lemma {:induction false} WalkPrices(t: Terms, lads: seq<seq<Ask>>)
    requires forall j :: 0 <= j < |lads| ==> Probabilities(lads[j])
    ensures forall s :: s in Walk(t, lads) ==> Probabilities(s.levels)
    decreases LevelsLeft(lads)
  {
    hide Margin, MinSize, Heads, Skip, Consume, SkipOne, ConsumeOne, Walk, LevelsLeft, Probabilities;
    if lads == [] || !AllOpen(lads) {
      WalkOver(t, lads);
    } else {
      WalkRound(t, lads);
      StepShrinks(lads);
      RoundPrices(lads);
      var heads := Heads(lads);
      var size := MinSize(heads);
      if size <= 0.0 {
        WalkPrices(t, Skip(lads));
      } else if Margin(t, heads, size) > 0.0 {
        RestPrices(lads, size);
        WalkPrices(t, Consume(lads, size));
      }
    }
  }

  lemma RoundPrices(lads: seq<seq<Ask>>)
    requires AllOpen(lads) && forall j :: 0 <= j < |lads| ==> Probabilities(lads[j])
    ensures Probabilities(Heads(lads))
    ensures forall j :: 0 <= j < |lads| ==> Probabilities(Skip(lads)[j])
  {
    hide Skip, Heads;
    forall j | 0 <= j < |lads| ensures 0.0 <= Heads(lads)[j].price <= 1.0 { assert Probabilities(lads[j]); }
    forall j | 0 <= j < |lads| ensures Probabilities(Skip(lads)[j]) { assert Probabilities(lads[j]); }
  }

  lemma RestPrices(lads: seq<seq<Ask>>, size: real)
    requires AllOpen(lads) && forall j :: 0 <= j < |lads| ==> Probabilities(lads[j])
    ensures forall j :: 0 <= j < |lads| ==> Probabilities(Consume(lads, size)[j])
  {
    hide Consume;
    forall j | 0 <= j < |lads| ensures Probabilities(Consume(lads, size)[j]) { assert Probabilities(lads[j]); }
  }

  lemma {:induction false} RoundingCost(t: Terms, slices: seq<Slice>, legs: nat)
    requires t.fees == Charged
    requires forall s :: s in slices ==> |s.levels| == legs && s.size > 0.0 && Probabilities(s.levels)
    ensures WalkMargin(t, slices) <= WalkMargin(t.(fees := Unrounded), slices)
                                   + (legs * |slices|) as real * (PM_QUANTUM / 2.0)
  {
    hide SumFees, SumPrices, Probabilities;
    if slices != [] {
      var s := slices[0];
      assert s in slices;
      forall x | x in slices[1..] ensures x in slices {}
      RoundingCost(t, slices[1..], legs);
      SliceRounding(t, s.levels, s.size);
      assert legs * |slices| == legs + legs * |slices[1..]|;
    }
  }

  lemma {:induction false} SliceRounding(t: Terms, levels: seq<Ask>, size: real)
    requires t.fees == Charged && size > 0.0 && Probabilities(levels)
    ensures SumFees(t.(fees := Unrounded), levels, size)
         <= SumFees(t, levels, size) + |levels| as real * (PM_QUANTUM / 2.0)
  {
    hide TakerFee, RawTakerFee;
    if levels != [] {
      SliceRounding(t, levels[1..], size);
      FeeBracket(levels[0].venue, t.bps, levels[0].price, size);
    }
  }
}
