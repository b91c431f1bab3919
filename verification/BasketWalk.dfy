/** The N-legged basket walk: ascending ask ladders are bought in lock-step, one equal
    slice of every leg at a time, while the marginal slice still earns after fees.

    `Walk` is the specification on remaining ladders; `WalkBasket` is the loop over
    copied ladders and indices, proved to compute it. */
module BasketWalk {
  import opened Wrappers
  import opened Ladders
  import opened VenueFees

  // Levels whose remainder is at most this are treated as exhausted.
  const RESIDUE := 0.000000001

  datatype Ask = Ask(price: real, size: real, venue: Venue)

  datatype FeeMode = Charged | Unrounded

  // What one walk is priced with: fee mode, Polymarket rate, guaranteed payout per basket.
  datatype Terms = Terms(fees: FeeMode, bps: int, payout: real)

  // One slice: the level each leg stands on, and the common size bought.
  datatype Slice = Slice(levels: seq<Ask>, size: real)

  datatype Basket = Basket(size: real, cost: real, net: real, netEdge: real, avgPrices: seq<real>)

  function LegFee(t: Terms, a: Ask, size: real): real {
    match t.fees
    case Charged => TakerFee(a.venue, t.bps, a.price, size)
    case Unrounded => RawTakerFee(a.venue, t.bps, a.price, size)
  }

  function SumPrices(levels: seq<Ask>): real {
    if levels == [] then 0.0 else levels[0].price + SumPrices(levels[1..])
  }

  function SumFees(t: Terms, levels: seq<Ask>, size: real): real {
    if levels == [] then 0.0 else LegFee(t, levels[0], size) + SumFees(t, levels[1..], size)
  }

  function MinSize(levels: seq<Ask>): (m: real)
    requires levels != []
    ensures forall a :: a in levels ==> m <= a.size
    ensures exists i :: 0 <= i < |levels| && levels[i].size == m
  {
    if |levels| == 1 then levels[0].size
    else
      var rest := MinSize(levels[1..]);
      assert exists i :: 0 <= i < |levels| && levels[i].size == rest by {
        var i :| 0 <= i < |levels[1..]| && levels[1..][i].size == rest;
        assert levels[i + 1].size == rest;
      }
      Min(levels[0].size, rest)
  }

  function Margin(t: Terms, levels: seq<Ask>, size: real): real {
    (t.payout - SumPrices(levels)) * size - SumFees(t, levels, size)
  }

  // ------------------------------------------------------- one step on ladders

  predicate AllOpen(lads: seq<seq<Ask>>) { forall j :: 0 <= j < |lads| ==> lads[j] != [] }

  function Heads(lads: seq<seq<Ask>>): (hs: seq<Ask>)
    requires AllOpen(lads)
    ensures |hs| == |lads| && forall j :: 0 <= j < |lads| ==> hs[j] == lads[j][0]
  {
    seq(|lads|, j requires 0 <= j < |lads| => lads[j][0])
  }

  function ConsumeOne(lad: seq<Ask>, size: real): seq<Ask>
    requires lad != []
  {
    var left := lad[0].size - size;
    if left <= RESIDUE then lad[1..] else [lad[0].(size := left)] + lad[1..]
  }

  // A level goes once a billionth of a contract or less is left of it.
  lemma ResidueGoes(lad: seq<Ask>, size: real)
    requires lad != []
    ensures lad[0].size - size <= 0.000000001 ==> ConsumeOne(lad, size) == lad[1..]
    ensures lad[0].size - size > 0.000000001 ==>
              ConsumeOne(lad, size) == [Ask(lad[0].price, lad[0].size - size, lad[0].venue)] + lad[1..]
  {
  }

  function Consume(lads: seq<seq<Ask>>, size: real): (rest: seq<seq<Ask>>)
    requires AllOpen(lads)
    ensures |rest| == |lads| && forall j :: 0 <= j < |lads| ==> rest[j] == ConsumeOne(lads[j], size)
  {
    seq(|lads|, j requires 0 <= j < |lads| => ConsumeOne(lads[j], size))
  }

  function SkipOne(lad: seq<Ask>): seq<Ask>
    requires lad != []
  {
    if lad[0].size <= 0.0 then lad[1..] else lad
  }

  function Skip(lads: seq<seq<Ask>>): (rest: seq<seq<Ask>>)
    requires AllOpen(lads)
    ensures |rest| == |lads| && forall j :: 0 <= j < |lads| ==> rest[j] == SkipOne(lads[j])
  {
    seq(|lads|, j requires 0 <= j < |lads| => SkipOne(lads[j]))
  }

  function LevelsLeft(lads: seq<seq<Ask>>): nat {
    if lads == [] then 0 else |lads[0]| + LevelsLeft(lads[1..])
  }

  // Shrinking every ladder weakly and one strictly shrinks the total: both kinds of
  // step finish a level, which is why the walk ends.
  lemma {:induction false} LevelsLeftShrinks(small: seq<seq<Ask>>, big: seq<seq<Ask>>)
    requires |small| == |big|
    requires forall j :: 0 <= j < |big| ==> |small[j]| <= |big[j]|
    ensures LevelsLeft(small) <= LevelsLeft(big)
    ensures (exists j :: 0 <= j < |big| && |small[j]| < |big[j]|) ==> LevelsLeft(small) < LevelsLeft(big)
  {
    if big != [] { LevelsLeftShrinks(small[1..], big[1..]); }
  }

  lemma StepShrinks(lads: seq<seq<Ask>>)
    requires lads != [] && AllOpen(lads)
    ensures var m := MinSize(Heads(lads));
            if m <= 0.0 then LevelsLeft(Skip(lads)) < LevelsLeft(lads)
            else LevelsLeft(Consume(lads, m)) < LevelsLeft(lads)
  {
    var m := MinSize(Heads(lads));
    var i :| 0 <= i < |lads| && Heads(lads)[i].size == m;
    if m <= 0.0 { SkipShrinks(lads, i); } else { ConsumeShrinks(lads, m, i); }
  }

  lemma SkipShrinks(lads: seq<seq<Ask>>, i: nat)
    requires AllOpen(lads) && i < |lads| && lads[i][0].size <= 0.0
    ensures LevelsLeft(Skip(lads)) < LevelsLeft(lads)
  {
    assert |Skip(lads)[i]| < |lads[i]|;
    LevelsLeftShrinks(Skip(lads), lads);
  }

  lemma ConsumeShrinks(lads: seq<seq<Ask>>, size: real, i: nat)
    requires AllOpen(lads) && i < |lads| && lads[i][0].size == size
    ensures LevelsLeft(Consume(lads, size)) < LevelsLeft(lads)
  {
    assert |Consume(lads, size)[i]| < |lads[i]|;
    LevelsLeftShrinks(Consume(lads, size), lads);
  }

  // ----------------------------------------------------------------- the walk

  function Walk(t: Terms, lads: seq<seq<Ask>>): (slices: seq<Slice>)
    ensures forall s :: s in slices ==> |s.levels| == |lads| && s.size > 0.0
    ensures forall s :: s in slices ==> Margin(t, s.levels, s.size) > 0.0
    decreases LevelsLeft(lads)
  {
    if lads == [] || !AllOpen(lads) then []
    else
      StepShrinks(lads);
      var heads := Heads(lads);
      var size := MinSize(heads);
      if size <= 0.0 then Walk(t, Skip(lads))
      else if Margin(t, heads, size) <= 0.0 then []
      else [Slice(heads, size)] + Walk(t, Consume(lads, size))
  }

  function WalkSize(slices: seq<Slice>): real {
    if slices == [] then 0.0 else slices[0].size + WalkSize(slices[1..])
  }

  function WalkFees(t: Terms, slices: seq<Slice>): real {
    if slices == [] then 0.0
    else SumFees(t, slices[0].levels, slices[0].size) + WalkFees(t, slices[1..])
  }

  function WalkMargin(t: Terms, slices: seq<Slice>): real {
    if slices == [] then 0.0
    else Margin(t, slices[0].levels, slices[0].size) + WalkMargin(t, slices[1..])
  }

  // What leg j paid, before fees.
  function LegCost(slices: seq<Slice>, j: nat): real
    requires forall s :: s in slices ==> j < |s.levels|
  {
    if slices == [] then 0.0
    else slices[0].levels[j].price * slices[0].size + LegCost(slices[1..], j)
  }

  function LegCosts(slices: seq<Slice>, legs: nat): (cs: seq<real>)
    requires forall s :: s in slices ==> |s.levels| == legs
    ensures |cs| == legs && forall j :: 0 <= j < legs ==> cs[j] == LegCost(slices, j)
  {
    seq(legs, j requires 0 <= j < legs => LegCost(slices, j))
  }

  function Averages(costs: seq<real>, size: real): (avgs: seq<real>)
    requires size != 0.0
    ensures |avgs| == |costs|
  {
    seq(|costs|, j requires 0 <= j < |costs| => costs[j] / size)
  }

  // The figures a finished walk reports; nothing when it bought nothing or nets nothing.
  function Finish(t: Terms, n: real, costs: seq<real>, fees: real): Option<Basket> {
    if n <= 0.0 then None
    else
      var cost := Sum(costs);
      var net := t.payout * n - cost - fees;
      if net <= 0.0 then None
      else Some(Basket(n, cost, net, if cost != 0.0 then net / cost else 0.0, Averages(costs, n)))
  }

  function Report(t: Terms, slices: seq<Slice>, legs: nat): Option<Basket>
    requires forall s :: s in slices ==> |s.levels| == legs
  {
    Finish(t, WalkSize(slices), LegCosts(slices, legs), WalkFees(t, slices))
  }

  // ------------------------------------------------- what the report amounts to

  lemma {:induction false} WalkSizeAppend(a: seq<Slice>, s: Slice)
    ensures WalkSize(a + [s]) == WalkSize(a) + s.size
  {
    if a != [] {
      assert (a + [s])[1..] == a[1..] + [s];
      WalkSizeAppend(a[1..], s);
    }
  }

  lemma {:induction false} WalkFeesAppend(t: Terms, a: seq<Slice>, s: Slice)
    ensures WalkFees(t, a + [s]) == WalkFees(t, a) + SumFees(t, s.levels, s.size)
  {
    hide SumFees;
    if a != [] {
      assert (a + [s])[1..] == a[1..] + [s];
      WalkFeesAppend(t, a[1..], s);
    }
  }

  lemma {:induction false} LegCostAppend(a: seq<Slice>, s: Slice, j: nat)
    requires j < |s.levels| && forall x :: x in a ==> j < |x.levels|
    ensures forall x :: x in a + [s] ==> j < |x.levels|
    ensures LegCost(a + [s], j) == LegCost(a, j) + s.levels[j].price * s.size
  {
    if a == [] {
      assert a + [s] == [s];
    } else {
      LegCostAppend(a[1..], s, j);
      assert (a + [s])[1..] == a[1..] + [s];
      LegCostUnfold(a + [s], j);
      LegCostUnfold(a, j);
    }
  }

  lemma LegCostUnfold(a: seq<Slice>, j: nat)
    requires a != [] && forall x :: x in a ==> j < |x.levels|
    ensures a[0] in a && LegCost(a, j) == a[0].levels[j].price * a[0].size + LegCost(a[1..], j)
  {
  }

  lemma {:induction false} SumZeros(costs: seq<real>)
    requires forall j :: 0 <= j < |costs| ==> costs[j] == 0.0
    ensures Sum(costs) == 0.0
  {
    if costs != [] { SumZeros(costs[1..]); }
  }

  // Adding one slice adds price times size on every leg.
  lemma {:induction false} SumAddSlice(before: seq<real>, after: seq<real>, levels: seq<Ask>, size: real)
    requires |before| == |after| == |levels|
    requires forall j :: 0 <= j < |levels| ==> after[j] == before[j] + levels[j].price * size
    ensures Sum(after) == Sum(before) + SumPrices(levels) * size
  {
    if levels != [] {
      SumAddSlice(before[1..], after[1..], levels[1..], size);
      assert SumPrices(levels) * size == levels[0].price * size + SumPrices(levels[1..]) * size;
    }
  }

  // The reported net is exactly the sum of the marginal nets the walk accepted.
  lemma {:induction false} NetIsSumOfMargins(t: Terms, slices: seq<Slice>, legs: nat)
    requires forall s :: s in slices ==> |s.levels| == legs
    ensures t.payout * WalkSize(slices) - Sum(LegCosts(slices, legs)) - WalkFees(t, slices)
         == WalkMargin(t, slices)
  {
    hide SumFees, SumPrices, LegCosts, Sum;
    if slices == [] {
      NothingDone(t, legs);
      SumZeros(LegCosts(slices, legs));
    } else {
      var s, rest := slices[0], slices[1..];
      LegCostsCons(slices, legs);
      NetIsSumOfMargins(t, rest, legs);
      SumAddSlice(LegCosts(rest, legs), LegCosts(slices, legs), s.levels, s.size);
      Collect(t.payout, SumPrices(s.levels), s.size, WalkSize(rest));
    }
  }

  lemma LegCostsCons(slices: seq<Slice>, legs: nat)
    requires slices != [] && forall s :: s in slices ==> |s.levels| == legs
    ensures forall s :: s in slices[1..] ==> |s.levels| == legs
    ensures slices[0] in slices
    ensures forall j :: 0 <= j < legs ==>
      LegCosts(slices, legs)[j] == LegCosts(slices[1..], legs)[j] + slices[0].levels[j].price * slices[0].size
  {
    assert slices[0] in slices;
    forall s | s in slices[1..] ensures s in slices {}
  }

  lemma Collect(payout: real, prices: real, size: real, rest: real)
    ensures payout * (size + rest) - prices * size == (payout - prices) * size + payout * rest
  {
  }

  lemma {:induction false} MarginsPositive(t: Terms, slices: seq<Slice>)
    requires forall s :: s in slices ==> s.size > 0.0 && Margin(t, s.levels, s.size) > 0.0
    ensures WalkMargin(t, slices) >= 0.0 && WalkSize(slices) >= 0.0
    ensures slices != [] ==> WalkMargin(t, slices) > 0.0 && WalkSize(slices) > 0.0
  {
    hide Margin;
    if slices != [] {
      forall s | s in slices[1..] ensures s in slices {}
      MarginsPositive(t, slices[1..]);
      assert slices[0] in slices;
    }
  }

  // A basket is reported exactly when some slice was accepted, and then it earns.
  lemma ReportIffSlice(t: Terms, lads: seq<seq<Ask>>)
    ensures var slices := Walk(t, lads);
            var r := Report(t, slices, |lads|);
            && (r.Some? <==> slices != [])
            && (r.Some? ==> && r.value.net == WalkMargin(t, slices) > 0.0
                            && r.value.size == WalkSize(slices) > 0.0)
  {
    hide Walk, Margin, LegCosts, WalkFees, WalkSize, WalkMargin, Averages;
    var slices := Walk(t, lads);
    NetIsSumOfMargins(t, slices, |lads|);
    MarginsPositive(t, slices);
    if slices == [] { NothingWalked(); }
  }

  lemma QuotientTimes(c: real, n: real)
    requires n != 0.0
    ensures c / n * n == c
  {
  }

  // The reported figures give back what was paid: leg by leg, in all, and against the edge.
  lemma ReportCoheres(t: Terms, lads: seq<seq<Ask>>, j: nat)
    requires j < |lads|
    ensures var slices := Walk(t, lads);
            var r := Report(t, slices, |lads|);
            r.Some? ==> && |r.value.avgPrices| == |lads|
                        && r.value.avgPrices[j] * r.value.size == LegCost(slices, j)
                        && r.value.cost + r.value.net + WalkFees(t, slices) == t.payout * r.value.size
                        && (if r.value.cost == 0.0 then r.value.netEdge == 0.0
                            else r.value.netEdge * r.value.cost == r.value.net)
  {
    hide Walk, WalkFees, WalkSize, LegCost, Sum;
    var slices := Walk(t, lads);
    var r := Report(t, slices, |lads|);
    if r.Some? {
      QuotientTimes(LegCost(slices, j), r.value.size);
      if r.value.cost != 0.0 { QuotientTimes(r.value.net, r.value.cost); }
    }
  }

  lemma NothingWalked()
    ensures WalkSize([]) == 0.0
  {
  }

  // ------------------------------------------------------------------ the loop

  // What is left of each copied ladder from its index on.
  function Remaining(qs: seq<seq<Ask>>, idx: seq<nat>): (rem: seq<seq<Ask>>)
    requires |qs| == |idx| && forall j :: 0 <= j < |qs| ==> idx[j] <= |qs[j]|
    ensures |rem| == |qs| && forall j :: 0 <= j < |qs| ==> rem[j] == qs[j][idx[j]..]
  {
    seq(|qs|, j requires 0 <= j < |qs| => qs[j][idx[j]..])
  }

  predicate InRange(qs: seq<seq<Ask>>, idx: seq<nat>) {
    |qs| == |idx| && forall j :: 0 <= j < |qs| ==> idx[j] <= |qs[j]|
  }

  predicate AnyEmpty(lads: seq<seq<Ask>>) { exists j :: 0 <= j < |lads| && lads[j] == [] }

  function CurrentLevels(qs: seq<seq<Ask>>, idx: seq<nat>): (levels: seq<Ask>)
    requires |qs| == |idx| && forall j :: 0 <= j < |qs| ==> idx[j] < |qs[j]|
    ensures AllOpen(Remaining(qs, idx)) && levels == Heads(Remaining(qs, idx))
  {
    assert forall j :: 0 <= j < |qs| ==> qs[j][idx[j]] == Remaining(qs, idx)[j][0];
    seq(|qs|, j requires 0 <= j < |qs| => qs[j][idx[j]])
  }

  // The index update of a round that found an empty level.
  method AdvancePastEmpty(qs: seq<seq<Ask>>, idx: seq<nat>) returns (next: seq<nat>)
    requires |qs| == |idx| && forall j :: 0 <= j < |qs| ==> idx[j] < |qs[j]|
    ensures InRange(qs, next)
    ensures Remaining(qs, next) == Skip(Remaining(qs, idx))
  {
    next := idx;
    for j := 0 to |qs|
      invariant |next| == |idx|
      invariant forall k :: j <= k < |qs| ==> next[k] == idx[k]
      invariant forall k :: 0 <= k < j ==> next[k] == if qs[k][idx[k]].size <= 0.0 then idx[k] + 1 else idx[k]
    {
      if qs[j][idx[j]].size <= 0.0 { next := next[j := idx[j] + 1]; }
    }
    forall k | 0 <= k < |qs| ensures qs[k][next[k]..] == SkipOne(qs[k][idx[k]..]) {
      assert qs[k][idx[k]..][0] == qs[k][idx[k]];
      assert qs[k][idx[k]..][1..] == qs[k][idx[k] + 1..];
    }
  }

  // Buying `size` on every leg: costs grow, levels shrink, exhausted levels are passed.
  method BuySlice(qs: seq<seq<Ask>>, idx: seq<nat>, costs: seq<real>, size: real)
    returns (qs': seq<seq<Ask>>, next: seq<nat>, costs': seq<real>)
    requires |qs| == |idx| == |costs| && forall j :: 0 <= j < |qs| ==> idx[j] < |qs[j]|
    ensures InRange(qs', next) && |qs'| == |qs| == |costs'|
    ensures Remaining(qs', next) == Consume(Remaining(qs, idx), size)
    ensures forall j :: 0 <= j < |qs| ==> costs'[j] == costs[j] + qs[j][idx[j]].price * size
  {
    hide ConsumeOne;
    qs', next, costs' := qs, idx, costs;
    for j := 0 to |qs|
      invariant |qs'| == |next| == |costs'| == |qs|
      invariant forall k :: j <= k < |qs| ==> qs'[k] == qs[k] && next[k] == idx[k] && costs'[k] == costs[k]
      invariant forall k :: 0 <= k < j ==> costs'[k] == costs[k] + qs[k][idx[k]].price * size
      invariant forall k :: 0 <= k < j ==>
        (next[k] <= |qs'[k]| && qs'[k][next[k]..] == ConsumeOne(qs[k][idx[k]..], size))
    {
      var i := idx[j];
      var level := qs[j][i];
      costs' := costs'[j := costs[j] + level.price * size];
      var left := level.(size := level.size - size);
      qs' := qs'[j := qs[j][i := left]];
      if left.size <= RESIDUE { next := next[j := i + 1]; }
      ShrinkLevel(qs[j], i, size);
    }
  }

  // Writing the remainder back in place, then stepping over it if exhausted, is ConsumeOne.
  lemma ShrinkLevel(lad: seq<Ask>, i: nat, size: real)
    requires i < |lad|
    ensures var left := lad[i].(size := lad[i].size - size);
            lad[i := left][if left.size <= RESIDUE then i + 1 else i..] == ConsumeOne(lad[i..], size)
  {
    var left := lad[i].(size := lad[i].size - size);
    TailOfUpdate(lad, i, left);
  }

  lemma TailOfUpdate(lad: seq<Ask>, i: nat, left: Ask)
    requires i < |lad|
    ensures lad[i..][0] == lad[i] && lad[i..][1..] == lad[i + 1..]
    ensures lad[i := left][i..] == [left] + lad[i + 1..] && lad[i := left][i + 1..] == lad[i + 1..]
  {
  }

  // One round of the walk, by the three ways it can go.
  lemma WalkRound(t: Terms, lads: seq<seq<Ask>>)
    requires lads != [] && AllOpen(lads)
    ensures var heads := Heads(lads);
            var size := MinSize(heads);
            Walk(t, lads) == if size <= 0.0 then Walk(t, Skip(lads))
                             else if Margin(t, heads, size) <= 0.0 then []
                             else [Slice(heads, size)] + Walk(t, Consume(lads, size))
  {
  }

  lemma WalkOver(t: Terms, lads: seq<seq<Ask>>)
    requires lads == [] || !AllOpen(lads)
    ensures Walk(t, lads) == []
  {
  }

  method WalkBasket(lads: seq<seq<Ask>>, bps: int, payout: real) returns (r: Option<Basket>)
    ensures r == Report(Terms(Charged, bps, payout), Walk(Terms(Charged, bps, payout), lads), |lads|)
  {
    hide Walk, SumPrices, SumFees, LegCosts, LegCost, WalkSize, WalkFees, Heads, Finish;
    hide MinSize, Consume, ConsumeOne, Skip, SkipOne, LevelsLeft, Report, Remaining, CurrentLevels;
    var t := Terms(Charged, bps, payout);
    NothingDone(t, |lads|);
    if lads == [] || AnyEmpty(lads) {
      WalkOver(t, lads);
      return None;
    }
    var qs := lads;
    var idx: seq<nat> := seq(|lads|, _ => 0);
    var n, costs, totalFees := 0.0, seq(|lads|, _ => 0.0), 0.0;
    ghost var done: seq<Slice> := [];
    assert Remaining(qs, idx) == lads;
    while forall j :: 0 <= j < |qs| ==> idx[j] < |qs[j]|
      invariant InRange(qs, idx) && |qs| == |lads| == |costs|
      invariant forall s :: s in done ==> |s.levels| == |lads|
      invariant Walk(t, lads) == done + Walk(t, Remaining(qs, idx))
      invariant n == WalkSize(done) && totalFees == WalkFees(t, done)
      invariant costs == LegCosts(done, |lads|)
      decreases LevelsLeft(Remaining(qs, idx))
    {
      var levels := CurrentLevels(qs, idx);
      var step := MinSize(levels);
      ghost var rem := Remaining(qs, idx);
      StepShrinks(rem);
      if step <= 0.0 {
        WalkRound(t, rem);
        idx := AdvancePastEmpty(qs, idx);
        continue;
      }
      var fees := SumFees(t, levels, step);
      if (payout - SumPrices(levels)) * step - fees <= 0.0 {
        WalkRound(t, rem);
        assert done + [] == done;
        ReportIsFinish(t, done, |lads|);
        return Finish(t, n, costs, totalFees);
      }
      n := n + step;
      totalFees := totalFees + fees;
      ghost var before := costs;
      qs, idx, costs := BuySlice(qs, idx, costs, step);
      SliceDone(t, done, rem, step, before, costs);
      done := done + [Slice(levels, step)];
    }
    WalkOver(t, Remaining(qs, idx));
    assert done + [] == done;
    ReportIsFinish(t, done, |lads|);
    r := Finish(t, n, costs, totalFees);
  }

  // One accepted slice moves from what is still to walk to what is done.
  lemma SliceDone(t: Terms, done: seq<Slice>, rem: seq<seq<Ask>>, step: real, before: seq<real>, after: seq<real>)
    requires rem != [] && AllOpen(rem) && step == MinSize(Heads(rem)) > 0.0 && Margin(t, Heads(rem), step) > 0.0
    requires |rem| == |before| == |after| && forall x :: x in done ==> |x.levels| == |rem|
    requires before == LegCosts(done, |rem|)
    requires forall j :: 0 <= j < |rem| ==> after[j] == before[j] + Heads(rem)[j].price * step
    ensures var more := done + [Slice(Heads(rem), step)];
            && done + Walk(t, rem) == more + Walk(t, Consume(rem, step))
            && (forall x :: x in more ==> |x.levels| == |rem|)
            && WalkSize(more) == WalkSize(done) + step
            && WalkFees(t, more) == WalkFees(t, done) + SumFees(t, Heads(rem), step)
            && after == LegCosts(more, |rem|)
  {
    hide Walk, SumPrices, SumFees, LegCosts, LegCost, WalkSize, WalkFees, Heads, MinSize;
    hide Consume, Skip, LevelsLeft, Margin;
    var s := Slice(Heads(rem), step);
    WalkRound(t, rem);
    DoneGrows(t, done, s, before, after, |rem|);
    Regroup(done, s, Walk(t, Consume(rem, step)));
  }

  lemma ReportIsFinish(t: Terms, slices: seq<Slice>, legs: nat)
    requires forall s :: s in slices ==> |s.levels| == legs
    ensures Report(t, slices, legs)
         == Finish(t, WalkSize(slices), LegCosts(slices, legs), WalkFees(t, slices))
  {
  }

  lemma NothingDone(t: Terms, legs: nat)
    ensures WalkSize([]) == 0.0 && WalkFees(t, []) == 0.0
    ensures LegCosts([], legs) == seq(legs, _ => 0.0)
    ensures Report(t, [], legs) == None
  {
  }

  lemma Regroup(done: seq<Slice>, s: Slice, rest: seq<Slice>)
    ensures done + ([s] + rest) == (done + [s]) + rest
  {
  }

  lemma DoneGrows(t: Terms, done: seq<Slice>, s: Slice, before: seq<real>, after: seq<real>, legs: nat)
    requires |s.levels| == legs == |before| == |after| && forall x :: x in done ==> |x.levels| == legs
    requires before == LegCosts(done, legs)
    requires forall j :: 0 <= j < legs ==> after[j] == before[j] + s.levels[j].price * s.size
    ensures forall x :: x in done + [s] ==> |x.levels| == legs
    ensures WalkSize(done + [s]) == WalkSize(done) + s.size
    ensures WalkFees(t, done + [s]) == WalkFees(t, done) + SumFees(t, s.levels, s.size)
    ensures after == LegCosts(done + [s], legs)
  {
    hide SumFees, WalkSize, WalkFees, LegCost;
    WalkSizeAppend(done, s);
    WalkFeesAppend(t, done, s);
    forall j | 0 <= j < legs ensures after[j] == LegCost(done + [s], j) { LegCostAppend(done, s, j); }
  }
}
