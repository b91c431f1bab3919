/** Legs that merge two venues: a ladder sorted by raw price need not ascend after fees.
    Ascending after fees is all the walk needs, and leg by leg it is also necessary. */
module MergedLegs {
  import opened Ladders
  import opened VenueFees
  import opened BasketWalk
  import opened BasketOptimality
  import opened ComplementaryWalk

  // ------------------------------------------------------------------ enough

  // Merged or not, legs that ascend after fees are walked optimally, over every equal-size
  // basket and every choice of levels.
  lemma OptimalWhenDearerLater(t: Terms, lot: real, lads: seq<seq<Ask>>, x: seq<seq<real>>, n: real)
    requires t.fees == Unrounded && lads != [] && GoodLegs(t.bps, lot, lads)
    requires EqualSizeBasket(t.bps, lads, x, n)
    ensures t.payout * n - BasketSpend(t.bps, lads, x) <= WalkMargin(t, Walk(t, lads))
  {
    hide LegOnLots, DearerLater, Walk, BasketSpend, WalkMargin;
    assert forall j :: 0 <= j < |lads| ==> GoodLeg(t.bps, lot, lads[j]);
    SpendAtLeastGreedy(t.bps, lads, x, n);
    WalkBeatsEverySize(t, lot, lads, n);
  }

  // ------------------------------------------------------------- one leg, exactly

  // What a walk of one ladder earns at a payout: its live levels up to the first that does
  // not pay.
  function SoloMargin(ls: seq<Level>, payout: real): real {
    if ls == [] then 0.0
    else if ls[0].size <= 0.0 then SoloMargin(ls[1..], payout)
    else if ls[0].price >= payout then 0.0
    else ls[0].size * (payout - ls[0].price) + SoloMargin(ls[1..], payout)
  }

  lemma {:induction false} SoloWalk(t: Terms, lad: seq<Ask>)
    requires t.fees == Unrounded
    ensures WalkMargin(t, Walk(t, [lad])) == SoloMargin(Offers(t.bps, true, lad), t.payout)
  {
    hide Walk, Margin, UnitCost, MinSize, Heads, Consume, Skip;
    if lad == [] {
      assert [lad][0] == [];
      WalkOver(t, [lad]);
    } else {
      var size := lad[0].size;
      SoloRound(t, lad);
      SoloWalk(t, lad[1..]);
      if size > 0.0 {
        var unit := t.payout - UnitCost(t.bps, true, lad[0]);
        SignOfProduct(unit, size);
        assert unit * size == size * unit;
        WalkMarginCons(t, Slice([lad[0]], size), Walk(t, [lad[1..]]));
      }
    }
  }

  // A round on one ladder drops its head, bought whole or empty, or stops.
  lemma SoloRound(t: Terms, lad: seq<Ask>)
    requires t.fees == Unrounded && lad != []
    ensures Margin(t, [lad[0]], lad[0].size) == (t.payout - UnitCost(t.bps, true, lad[0])) * lad[0].size
    ensures Walk(t, [lad]) == if lad[0].size <= 0.0 then Walk(t, [lad[1..]])
                              else if Margin(t, [lad[0]], lad[0].size) <= 0.0 then []
                              else [Slice([lad[0]], lad[0].size)] + Walk(t, [lad[1..]])
  {
    hide Walk, Margin, UnitCost, SumUnits;
    var lads, size := [lad], lad[0].size;
    assert Heads(lads) == [lad[0]] && MinSize([lad[0]]) == size;
    assert Skip(lads) == [SkipOne(lad)] && Consume(lads, size) == [ConsumeOne(lad, size)];
    WalkRound(t, lads);
    MarginIsLinear(t, [lad[0]], size);
    OneUnit(t.bps, lad[0]);
  }

  lemma OneUnit(bps: int, a: Ask)
    ensures SumUnits(bps, [a]) == UnitCost(bps, true, a)
  {
    assert [a][1..] == [];
  }

  // A level worth taking behind one that stops the walk.
  ghost predicate Hides(ls: seq<Level>, payout: real) {
    exists i, j :: 0 <= i < j < |ls| && ls[i].size > 0.0 && ls[j].size > 0.0 && ls[j].price < payout <= ls[i].price
  }

  // The most any choice of levels can earn is the surplus; the walk earns it exactly when
  // nothing is hidden.
  lemma {:induction false} SoloAgainstSurplus(ls: seq<Level>, payout: real)
    ensures SoloMargin(ls, payout) <= Surplus(ls, payout)
    ensures SoloMargin(ls, payout) == Surplus(ls, payout) <==> !Hides(ls, payout)
  {
    hide Hides, HasCheap, Gain;
    if ls == [] {
      HidesNothing(payout);
    } else {
      SoloAgainstSurplus(ls[1..], payout);
      HidesCons(ls, payout);
      CheapLevels(ls[1..], payout);
      GainOf(ls[0], payout);
    }
  }

  lemma GainOf(l: Level, payout: real)
    ensures Gain(l, payout) == if l.size > 0.0 && l.price < payout then l.size * (payout - l.price) else 0.0
  {
  }

  lemma HidesNothing(payout: real)
    ensures !Hides([], payout)
  {
  }

  ghost predicate HasCheap(ls: seq<Level>, payout: real) {
    exists j :: 0 <= j < |ls| && ls[j].size > 0.0 && ls[j].price < payout
  }

  lemma HidesCons(ls: seq<Level>, payout: real)
    requires ls != []
    ensures Hides(ls, payout) <==>
      Hides(ls[1..], payout) || (ls[0].size > 0.0 && ls[0].price >= payout && HasCheap(ls[1..], payout))
    ensures Hides(ls[1..], payout) ==> HasCheap(ls[1..], payout)
  {
    if Hides(ls, payout) { HidesTail(ls, payout); }
    if Hides(ls[1..], payout) { TailHides(ls, payout); }
    if HasCheap(ls[1..], payout) {
      var j :| 0 <= j < |ls[1..]| && ls[1..][j].size > 0.0 && ls[1..][j].price < payout;
      assert ls[j + 1] == ls[1..][j];
    }
  }

  lemma HidesTail(ls: seq<Level>, payout: real)
    requires ls != [] && Hides(ls, payout)
    ensures Hides(ls[1..], payout) || (ls[0].size > 0.0 && ls[0].price >= payout && HasCheap(ls[1..], payout))
  {
    var i, j :| 0 <= i < j < |ls| && ls[i].size > 0.0 && ls[j].size > 0.0 && ls[j].price < payout <= ls[i].price;
    assert ls[1..][j - 1] == ls[j];
    if i > 0 { assert ls[1..][i - 1] == ls[i]; }
  }

  lemma TailHides(ls: seq<Level>, payout: real)
    requires ls != [] && Hides(ls[1..], payout)
    ensures Hides(ls, payout) && HasCheap(ls[1..], payout)
  {
    var rest := ls[1..];
    var i, j :| 0 <= i < j < |rest| && rest[i].size > 0.0 && rest[j].size > 0.0 &&
      rest[j].price < payout <= rest[i].price;
    assert ls[i + 1] == rest[i] && ls[j + 1] == rest[j];
  }

  // There is surplus exactly when some live level is below the payout.
  lemma {:induction false} CheapLevels(ls: seq<Level>, payout: real)
    ensures Surplus(ls, payout) > 0.0 <==> HasCheap(ls, payout)
  {
    if ls != [] {
      var rest := ls[1..];
      CheapLevels(rest, payout);
      assert forall i :: 0 <= i < |rest| ==> rest[i] == ls[i + 1];
      assert HasCheap(ls, payout) <==> HasCheap(rest, payout) || (ls[0].size > 0.0 && ls[0].price < payout) by {
        if HasCheap(rest, payout) {
          var j :| 0 <= j < |rest| && rest[j].size > 0.0 && rest[j].price < payout;
          assert ls[j + 1] == rest[j];
        }
        if HasCheap(ls, payout) {
          var j :| 0 <= j < |ls| && ls[j].size > 0.0 && ls[j].price < payout;
          if j > 0 { assert rest[j - 1] == ls[j]; }
        }
      }
      if ls[0].size > 0.0 && ls[0].price < payout { ProductPositive(ls[0].size, payout - ls[0].price); }
    }
  }

  // Every level below the payout, in full.
  function CheapPicks(ls: seq<Level>, payout: real): seq<real> {
    if ls == [] then [] else [if ls[0].price < payout then Avail(ls[0]) else 0.0] + CheapPicks(ls[1..], payout)
  }

  lemma {:induction false} PicksFeasible(ls: seq<Level>, payout: real)
    ensures Feasible(ls, CheapPicks(ls, payout))
  {
    if ls != [] { PicksFeasible(ls[1..], payout); }
  }

  lemma {:induction false} PicksEarnSurplus(ls: seq<Level>, payout: real)
    ensures Feasible(ls, CheapPicks(ls, payout))
    ensures payout * Sum(CheapPicks(ls, payout)) - AllocationCost(ls, CheapPicks(ls, payout)) == Surplus(ls, payout)
  {
    hide Gain, Avail, Feasible;
    PicksFeasible(ls, payout);
    if ls != [] {
      PicksEarnSurplus(ls[1..], payout);
      OnePick(ls[0], payout, Sum(CheapPicks(ls[1..], payout)));
    }
  }

  lemma OnePick(l: Level, payout: real, rest: real)
    ensures var x := if l.price < payout then Avail(l) else 0.0;
            payout * (x + rest) - l.price * x == Gain(l, payout) + payout * rest
  {
    var x := if l.price < payout then Avail(l) else 0.0;
    GainOf(l, payout);
    assert payout * (x + rest) - l.price * x == x * (payout - l.price) + payout * rest;
  }

  // No choice of levels of this one leg beats its walk.
  ghost predicate SoloOptimal(t: Terms, lad: seq<Ask>) {
    forall x :: Feasible(Offers(t.bps, true, lad), x) ==>
      t.payout * Sum(x) - AllocationCost(Offers(t.bps, true, lad), x) <= WalkMargin(t, Walk(t, [lad]))
  }

  // At one payout: optimal exactly when no live level below the payout stands behind a live
  // one at or above it. Any ladder, any venues, any sizes.
  lemma SoloOptimalIff(t: Terms, lad: seq<Ask>)
    requires t.fees == Unrounded
    ensures SoloOptimal(t, lad) <==> !Hides(Offers(t.bps, true, lad), t.payout)
  {
    hide Walk, WalkMargin, Offers, Surplus, AllocationCost, Sum, Hides;
    var ls := Offers(t.bps, true, lad);
    SoloWalk(t, lad);
    SoloAgainstSurplus(ls, t.payout);
    PicksEarnSurplus(ls, t.payout);
    forall x | Feasible(ls, x) ensures t.payout * Sum(x) - AllocationCost(ls, x) <= Surplus(ls, t.payout) {
      WeakDuality(ls, x, t.payout);
    }
  }

  // The levels that hold anything, in ascending cost.
  ghost predicate LiveAscend(ls: seq<Level>) {
    forall i, j :: 0 <= i < j < |ls| && ls[i].size > 0.0 && ls[j].size > 0.0 ==> ls[i].price <= ls[j].price
  }

  // At every payout: exactly when the live levels ascend after fees.
  lemma WalkedOptimallyIff(t: Terms, lad: seq<Ask>)
    requires t.fees == Unrounded
    ensures (forall payout :: SoloOptimal(t.(payout := payout), lad)) <==> LiveAscend(Offers(t.bps, true, lad))
  {
    hide SoloOptimal, Offers;
    var ls := Offers(t.bps, true, lad);
    forall payout ensures SoloOptimal(t.(payout := payout), lad) <==> !Hides(ls, payout) {
      SoloOptimalIff(t.(payout := payout), lad);
    }
    if !LiveAscend(ls) {
      var i, j :| 0 <= i < j < |ls| && ls[i].size > 0.0 && ls[j].size > 0.0 && ls[i].price > ls[j].price;
      assert Hides(ls, ls[i].price);
      assert !SoloOptimal(t.(payout := ls[i].price), lad);
    }
  }

  // ------------------------------------------------------------- beside another leg

  // Beside a leg of one deep level the ladder is walked as on its own, for the payout less
  // what that level costs.
  lemma {:induction false} WalkBeside(t: Terms, lad: seq<Ask>, price: real, venue: Venue, deep: real)
    requires t.fees == Unrounded && deep > Depth(Offers(t.bps, true, lad)) + 1.0
    ensures WalkMargin(t, Walk(t, [lad, [Ask(price, deep, venue)]]))
         == SoloMargin(Offers(t.bps, true, lad), t.payout - Effective(TakerRate(venue, t.bps), price))
    decreases |lad|
  {
    hide Walk, PairMargin, UnitCost, ConsumeOne, SkipOne, Margin, Effective, Depth;
    var other := Ask(price, deep, venue);
    PairRound(t, lad, [other]);
    if lad != [] {
      var size := lad[0].size;
      TailDepth(t.bps, lad);
      if size <= 0.0 {
        DeepSkip(lad, other);
        WalkBeside(t, lad[1..], price, venue, deep);
      } else {
        DeepSlice(t, lad, price, venue, deep);
        WalkBeside(t, lad[1..], price, venue, deep - size);
        WalkMarginCons(t, Slice([lad[0], other], size), Walk(t, [lad[1..], [Ask(price, deep - size, venue)]]));
      }
    }
  }

  lemma TailDepth(bps: int, lad: seq<Ask>)
    requires lad != []
    ensures Depth(Offers(bps, true, lad)) == Max(lad[0].size, 0.0) + Depth(Offers(bps, true, lad[1..]))
    ensures Depth(Offers(bps, true, lad[1..])) >= 0.0
  {
    hide UnitCost;
    assert Offers(bps, true, lad)[1..] == Offers(bps, true, lad[1..]);
  }

  lemma DeepSkip(lad: seq<Ask>, other: Ask)
    requires lad != [] && lad[0].size <= 0.0 && other.size > 0.0
    ensures SkipOne(lad) == lad[1..] && SkipOne([other]) == [other] && Min(lad[0].size, other.size) <= 0.0
  {
  }

  // What a slice leaves of the two, and what it is worth.
  lemma DeepSlice(t: Terms, lad: seq<Ask>, price: real, venue: Venue, deep: real)
    requires t.fees == Unrounded && lad != [] && 0.0 < lad[0].size && lad[0].size + 1.0 < deep
    ensures var size, other := lad[0].size, Ask(price, deep, venue);
            var unit := t.payout - Effective(TakerRate(venue, t.bps), price) - UnitCost(t.bps, true, lad[0]);
            && Min(size, deep) == size
            && ConsumeOne(lad, size) == lad[1..] && ConsumeOne([other], size) == [Ask(price, deep - size, venue)]
            && PairMargin(t, lad[0], other, size) == Margin(t, [lad[0], other], size) == size * unit
            && (PairMargin(t, lad[0], other, size) <= 0.0 <==> unit <= 0.0)
  {
    hide UnitCost, PairMargin, Margin, SumUnits, Effective;
    var size, other := lad[0].size, Ask(price, deep, venue);
    var unit := t.payout - Effective(TakerRate(venue, t.bps), price) - UnitCost(t.bps, true, lad[0]);
    PairSums(t, lad[0], other, size);
    MarginIsLinear(t, [lad[0], other], size);
    TwoUnits(t.bps, lad[0], other);
    UnitIs(t.bps, other);
    UnitTimes(t.payout, UnitCost(t.bps, true, lad[0]), Effective(TakerRate(venue, t.bps), price), size);
    SignOfProduct(unit, size);
    assert unit * size == size * unit;
  }

  lemma UnitIs(bps: int, a: Ask)
    ensures UnitCost(bps, true, a) == Effective(TakerRate(a.venue, bps), a.price)
  {
  }

  lemma UnitTimes(payout: real, u: real, v: real, size: real)
    ensures (payout - (u + v)) * size == size * (payout - v - u)
  {
  }

  lemma TwoUnits(bps: int, a: Ask, b: Ask)
    ensures SumUnits(bps, [a, b]) == UnitCost(bps, true, a) + UnitCost(bps, true, b)
  {
    hide UnitCost;
    assert [a, b][1..] == [b] && [b][1..] == [];
    assert SumUnits(bps, [b]) == UnitCost(bps, true, b) + SumUnits(bps, []);
  }

  // A Kalshi level deep enough for the whole ladder.
  function DeepOther(bps: int, lad: seq<Ask>, price: real): Ask {
    Ask(price, Depth(Offers(bps, true, lad)) + 2.0, Kalshi)
  }

  // No equal-size basket of the two legs beats their walk.
  ghost predicate OptimalBeside(t: Terms, lad: seq<Ask>, price: real) {
    forall x: seq<real> :: Feasible(Offers(t.bps, true, lad), x) ==>
      t.payout * Sum(x) - PairSpend(t, lad, price, x) <= WalkMargin(t, Walk(t, [lad, [DeepOther(t.bps, lad, price)]]))
  }

  // What such a basket spends: x of the ladder, as many of the other level.
  function PairSpend(t: Terms, lad: seq<Ask>, price: real, x: seq<real>): real
    requires |x| == |lad|
  {
    BasketSpend(t.bps, [lad, [DeepOther(t.bps, lad, price)]], [x, [Sum(x)]])
  }

  lemma PairSpendIs(t: Terms, lad: seq<Ask>, price: real, x: seq<real>)
    requires Feasible(Offers(t.bps, true, lad), x)
    ensures EqualSizeBasket(t.bps, [lad, [DeepOther(t.bps, lad, price)]], [x, [Sum(x)]], Sum(x))
    ensures PairSpend(t, lad, price, x)
         == AllocationCost(Offers(t.bps, true, lad), x) + UnitCost(t.bps, true, DeepOther(t.bps, lad, price)) * Sum(x)
  {
    hide AllocationCost, UnitCost, Depth, Sum, BasketSpend, Offers;
    var other, n := DeepOther(t.bps, lad, price), Sum(x);
    SumBounds(Offers(t.bps, true, lad), x);
    OtherTakes(t.bps, other, n);
    SpendTwo(t.bps, [lad, [other]], [x, [n]]);
  }

  lemma OtherTakes(bps: int, other: Ask, n: real)
    requires 0.0 <= n <= other.size
    ensures Feasible(Offers(bps, true, [other]), [n]) && Sum([n]) == n
    ensures AllocationCost(Offers(bps, true, [other]), [n]) == UnitCost(bps, true, other) * n
  {
    hide UnitCost;
    assert Offers(bps, true, [other]) == [Level(UnitCost(bps, true, other), other.size)];
    OneLevel(Offers(bps, true, [other]), n);
  }

  lemma OneLevel(ls: seq<Level>, n: real)
    requires |ls| == 1
    ensures AllocationCost(ls, [n]) == ls[0].price * n && Sum([n]) == n
  {
    assert ls[1..] == [] && [n][1..] == [];
  }

  // Beside one companion: optimal exactly when nothing is hidden at what it leaves.
  lemma OptimalBesideIff(t: Terms, lad: seq<Ask>, price: real)
    requires t.fees == Unrounded
    ensures OptimalBeside(t, lad, price)
       <==> !Hides(Offers(t.bps, true, lad), t.payout - UnitCost(t.bps, true, DeepOther(t.bps, lad, price)))
  {
    hide Walk, WalkMargin, Offers, Surplus, AllocationCost, Sum, Hides, PairSpend, UnitCost;
    var ls, other := Offers(t.bps, true, lad), DeepOther(t.bps, lad, price);
    var left := t.payout - UnitCost(t.bps, true, other);
    WalkBeside(t, lad, price, Kalshi, other.size);
    UnitIs(t.bps, other);
    SoloAgainstSurplus(ls, left);
    PicksEarnSurplus(ls, left);
    forall x | Feasible(ls, x)
      ensures t.payout * Sum(x) - PairSpend(t, lad, price, x) == left * Sum(x) - AllocationCost(ls, x)
      ensures left * Sum(x) - AllocationCost(ls, x) <= Surplus(ls, left)
    {
      PairSpendIs(t, lad, price, x);
      LessTimes(t.payout, UnitCost(t.bps, true, other), Sum(x));
      WeakDuality(ls, x, left);
    }
  }

  lemma LessTimes(a: real, b: real, c: real)
    ensures a * c - b * c == (a - b) * c
  {
  }

  // A fee curve takes every value on the way: some price costs between lo and hi.
  lemma PriceBetween(rate: real, lo: real, hi: real) returns (p: real)
    requires 0.0 <= rate <= 1.0 && 0.0 <= lo < hi <= 1.0
    ensures 0.0 <= p <= 1.0 && lo <= Effective(rate, p) < hi
  {
    hide Effective;
    var k := EnoughHalvings(hi - lo);
    EffectiveAtOne(rate);
    p := Bisect(rate, lo, hi, 0.0, 1.0, k);
  }

  // width doubled k times.
  function Doubled(width: real, k: nat): real { if k == 0 then width else 2.0 * Doubled(width, k - 1) }

  lemma EnoughHalvings(width: real) returns (k: nat)
    requires width > 0.0
    ensures Doubled(width, k) >= 2.0
  {
    var ratio := 2.0 / width;
    assert ratio * width == 2.0;
    SignOfProduct(ratio, width);
    k := ratio.Floor + 1;
    MulMono(ratio, k as real, width);
    DoubledGrows(width, k);
  }

  lemma {:induction false} DoubledGrows(width: real, k: nat)
    requires width > 0.0
    ensures Doubled(width, k) >= k as real * width && Doubled(width, k) >= width
  {
    if k > 0 {
      DoubledGrows(width, k - 1);
      assert k as real * width == (k - 1) as real * width + width;
    }
  }

  lemma Bisect(rate: real, lo: real, hi: real, a: real, b: real, k: nat) returns (p: real)
    requires 0.0 <= rate <= 1.0 && 0.0 <= a < b <= 1.0 && 2.0 * (b - a) <= Doubled(hi - lo, k)
    requires Effective(rate, a) < hi <= Effective(rate, b)
    ensures 0.0 <= p <= 1.0 && lo <= Effective(rate, p) < hi
    decreases k
  {
    hide Effective;
    if k == 0 {
      EffectiveClimbs(rate, a, b - a);
      p := a;
    } else {
      var mid := (a + b) / 2.0;
      if Effective(rate, mid) < hi { p := Bisect(rate, lo, hi, mid, b, k - 1); }
      else { p := Bisect(rate, lo, hi, a, mid, k - 1); }
    }
  }

  lemma EffectiveClimbs(rate: real, p: real, step: real)
    requires 0.0 <= rate <= 1.0 && 0.0 <= p && step > 0.0 && p + step <= 1.0
    ensures Effective(rate, p + step) <= Effective(rate, p) + 2.0 * step
  {
    var bend, flat := step * (1.0 - 2.0 * p - step), p * (1.0 - p);
    assert (p + step) * (1.0 - (p + step)) == flat + bend;
    assert rate * (flat + bend) == rate * flat + rate * bend;
    MulMono(1.0 - 2.0 * p - step, 1.0, step);
    AtMostPart(rate, bend, step);
  }

  lemma AtMostPart(rate: real, bend: real, step: real)
    requires 0.0 <= rate <= 1.0 && bend <= step && step >= 0.0
    ensures rate * bend <= step
  {
    MulMono(bend, step, rate);
    MulMono(rate, 1.0, step);
    assert rate * bend == bend * rate <= step * rate == rate * step <= step;
  }

  lemma EffectiveAtOne(rate: real)
    ensures Effective(rate, 1.0) == 1.0 && Effective(rate, 0.0) == 0.0
  {
  }

  lemma UnitWithin(bps: int, a: Ask)
    requires bps <= 10000 && 0.0 <= a.price <= 1.0
    ensures 0.0 <= UnitCost(bps, true, a) <= 1.0
  {
    var rate := TakerRate(a.venue, bps);
    EffectiveAtOne(rate);
    EffectiveMonotone(rate, 0.0, a.price);
    EffectiveMonotone(rate, a.price, 1.0);
  }

  // For a payout of one dollar, beside every companion: exactly when the live levels ascend
  // after fees. A leg that does not has a companion with which the walk is beaten.
  lemma OptimalBesideAllIff(t: Terms, lad: seq<Ask>)
    requires t.fees == Unrounded && t.payout == 1.0 && t.bps <= 10000 && Probabilities(lad)
    ensures (forall price | 0.0 <= price <= 1.0 :: OptimalBeside(t, lad, price)) <==>
        LiveAscend(Offers(t.bps, true, lad))
  {
    hide OptimalBeside, UnitCost, Effective;
    var ls := Offers(t.bps, true, lad);
    forall price | 0.0 <= price <= 1.0
      ensures OptimalBeside(t, lad, price) <==> !Hides(ls, 1.0 - UnitCost(t.bps, true, DeepOther(t.bps, lad, price)))
    {
      OptimalBesideIff(t, lad, price);
    }
    if !LiveAscend(ls) {
      var i, j :| 0 <= i < j < |ls| && ls[i].size > 0.0 && ls[j].size > 0.0 && ls[i].price > ls[j].price;
      UnitWithin(t.bps, lad[i]);
      UnitWithin(t.bps, lad[j]);
      var price := PriceBetween(KALSHI_TAKER_FACTOR, 1.0 - ls[i].price, 1.0 - ls[j].price);
      OtherCosts(t.bps, lad, price);
      assert Hides(ls, 1.0 - UnitCost(t.bps, true, DeepOther(t.bps, lad, price)));
      assert !OptimalBeside(t, lad, price);
    }
  }

  lemma OtherCosts(bps: int, lad: seq<Ask>, price: real)
    ensures UnitCost(bps, true, DeepOther(bps, lad, price)) == Effective(KALSHI_TAKER_FACTOR, price)
  {
    hide Depth;
  }

  // ------------------------------------------------------------------ a witness

  // A dearer level that carries no fee hides behind a cheaper one that does.
  const MERGED_LEG := [Ask(0.5, 1.0, Kalshi), Ask(0.505, 1.0, Polymarket)]
  const OTHER_LEG := [Ask(0.485, 1.0, Polymarket)]

  // Charged as the code charges, the walk buys nothing, and the slice it never looks at
  // earns a cent; so does that basket before rounding.
  lemma MergedLegHidesProfit()
    ensures var lads, t, x := [MERGED_LEG, OTHER_LEG], Terms(Charged, 0, 1.0), [[0.0, 1.0], [1.0]];
            && Walk(t, lads) == []
            && Margin(t, [MERGED_LEG[1], OTHER_LEG[0]], 1.0) == 0.01
            && EqualSizeBasket(0, lads, x, 1.0)
            && t.payout * 1.0 - BasketSpend(0, lads, x) == 0.01
  {
    hide Walk;
    var lads, t := [MERGED_LEG, OTHER_LEG], Terms(Charged, 0, 1.0);
    MergedWalkStops(t, lads);
    HiddenSlice(t);
    var merged, other := Offers(0, true, MERGED_LEG), Offers(0, true, OTHER_LEG);
    assert merged[1].price == 0.505 && other[0].price == 0.485;
    AllocateTwo(merged);
    assert AllocationCost(other, [1.0]) == 0.485 && Sum([1.0]) == 1.0;
    SpendTwo(0, lads, [[0.0, 1.0], [1.0]]);
  }

  lemma AllocateTwo(ls: seq<Level>)
    requires |ls| == 2
    ensures AllocationCost(ls, [0.0, 1.0]) == ls[1].price && Sum([0.0, 1.0]) == 1.0
  {
    assert AllocationCost(ls[1..], [1.0]) == ls[1].price && Sum([1.0]) == 1.0;
    assert [0.0, 1.0][1..] == [1.0];
  }

  lemma SpendTwo(bps: int, lads: seq<seq<Ask>>, x: seq<seq<real>>)
    requires |lads| == |x| == 2 && |x[0]| == |lads[0]| && |x[1]| == |lads[1]|
    ensures BasketSpend(bps, lads, x)
         == AllocationCost(Offers(bps, true, lads[0]), x[0]) + AllocationCost(Offers(bps, true, lads[1]), x[1])
  {
    hide AllocationCost, Offers;
    var last, lastX := lads[1..], x[1..];
    assert last[0] == lads[1] && lastX[0] == x[1] && last[1..] == [];
    assert BasketSpend(bps, last, lastX)
        == AllocationCost(Offers(bps, true, last[0]), lastX[0]) + BasketSpend(bps, [], lastX[1..]);
  }

  lemma HiddenSlice(t: Terms)
    requires t == Terms(Charged, 0, 1.0)
    ensures Margin(t, [MERGED_LEG[1], OTHER_LEG[0]], 1.0) == 0.01
  {
    var levels := [MERGED_LEG[1], OTHER_LEG[0]];
    assert levels[1..] == [OTHER_LEG[0]] && levels[1..][1..] == [];
    assert SumPrices(levels) == 0.99 && SumFees(t, levels, 1.0) == 0.0;
  }

  lemma MergedWalkStops(t: Terms, lads: seq<seq<Ask>>)
    requires t == Terms(Charged, 0, 1.0) && lads == [MERGED_LEG, OTHER_LEG]
    ensures Walk(t, lads) == []
  {
    hide Walk, MinSize;
    var heads := Heads(lads);
    assert heads == [MERGED_LEG[0], OTHER_LEG[0]];
    assert MinSize(heads) == 1.0 by {
      var i :| 0 <= i < |heads| && heads[i].size == MinSize(heads);
    }
    WalkRound(t, lads);
    FeeBracket(Kalshi, 0, 0.5, 1.0);
    assert heads[1..] == [OTHER_LEG[0]] && heads[1..][1..] == [];
    assert SumPrices(heads) == 0.985 && SumFees(t, heads, 1.0) >= 0.0175;
  }
}
