/** What rounding costs: walks that report a loss they were written to avoid, and walks that
    leave any amount of profit behind. */
module RoundingLosses {
  import opened Ladders
  import opened VenueFees
  import opened BasketWalk
  import opened ComplementaryWalk
  import opened Repricing
  import MergedLegs

  // ------------------------------------------------------------- two slices, priced once

  // Two levels on one leg against a deep one on the other; the legs in either order.
  function TwoLevels(x1: Ask, x2: Ask, y: Ask, first: bool): seq<seq<Ask>> {
    if first then [[x1, x2], [y]] else [[y], [x1, x2]]
  }

  function TwoSlices(x1: Ask, x2: Ask, y: Ask, first: bool): seq<Slice> {
    var rest := y.(size := y.size - x1.size);
    [Slice(if first then [x1, y] else [y, x1], x1.size), Slice(if first then [x2, rest] else [rest, x2], x2.size)]
  }

  // What the walk sees of one slice.
  function SliceNet(t: Terms, x: Ask, y: Ask): real {
    (1.0 - x.price - y.price) * x.size - LegFee(t, x, x.size) - LegFee(t, y, x.size)
  }

  // What it reports for both, each leg charged once at its average.
  function BothNet(t: Terms, x1: Ask, x2: Ask, y: Ask): real
    requires 0.0 < x1.size && 0.0 < x2.size
  {
    OnceNet(t, x1.size + x2.size, Spent(x1, x2), y.price, x1.venue, y.venue)
  }

  function Spent(x1: Ask, x2: Ask): real { x1.price * x1.size + x2.price * x2.size }

  // A size `n` for `c` on one leg and at one price on the other.
  function OnceNet(t: Terms, n: real, c: real, price: real, u: Venue, v: Venue): real
    requires n > 0.0
  {
    n - c - price * n - LegFee(t, Ask(c / n, n, u), n) - LegFee(t, Ask(price, n, v), n)
  }

  lemma BothAccepted(t: Terms, x1: Ask, x2: Ask, y: Ask, first: bool)
    requires t.payout == 1.0 && 0.0 < x1.size && 0.0 < x2.size && x1.size + x2.size + RESIDUE < y.size
    requires SliceNet(t, x1, y) > 0.0 && SliceNet(t, x2, y) > 0.0
    ensures Walk(t, TwoLevels(x1, x2, y, first)) == TwoSlices(x1, x2, y, first)
  {
    hide Walk, LegFee, ConsumeOne, PairMargin, SliceNet;
    var rest := y.(size := y.size - x1.size);
    var left := rest.(size := rest.size - x2.size);
    TakenWhole(x1, x2);
    TakenWhole(x2, x2);
    TakenPart(y, x1.size);
    TakenPart(rest, x2.size);
    NetEitherWay(t, x1, y);
    NetEitherWay(t, x2, rest);
    SameNet(t, x2, y, rest);
    if first {
      PairRound(t, [], [left]);
      PairRound(t, [x2], [rest]);
      assert Walk(t, [[x2], [rest]]) == [Slice([x2, rest], x2.size)];
      PairRound(t, [x1, x2], [y]);
    } else {
      PairRound(t, [left], []);
      PairRound(t, [rest], [x2]);
      assert Walk(t, [[rest], [x2]]) == [Slice([rest, x2], x2.size)];
      PairRound(t, [y], [x1, x2]);
    }
  }

  lemma TakenWhole(x: Ask, next: Ask)
    ensures ConsumeOne([x, next], x.size) == [next] && ConsumeOne([x], x.size) == []
  {
  }

  lemma TakenPart(y: Ask, size: real)
    requires y.size - size > RESIDUE
    ensures ConsumeOne([y], size) == [y.(size := y.size - size)]
  {
  }

  lemma SameNet(t: Terms, x: Ask, y: Ask, rest: Ask)
    requires rest == y.(size := rest.size)
    ensures SliceNet(t, x, rest) == SliceNet(t, x, y)
  {
    hide LegFee;
    SameFee(t, y, rest, x.size);
    SameTimes(1.0 - x.price - y.price, 1.0 - x.price - rest.price, x.size, x.size);
  }

  lemma SameFee(t: Terms, a: Ask, b: Ask, size: real)
    requires a.price == b.price && a.venue == b.venue
    ensures LegFee(t, a, size) == LegFee(t, b, size)
  {
  }

  lemma NetEitherWay(t: Terms, x: Ask, y: Ask)
    requires t.payout == 1.0
    ensures PairMargin(t, x, y, x.size) == SliceNet(t, x, y) == PairMargin(t, y, x, x.size)
  {
    hide LegFee;
    assert 1.0 - y.price - x.price == 1.0 - x.price - y.price;
  }

  lemma ReportedForBoth(t: Terms, x1: Ask, x2: Ask, y: Ask, first: bool, u: Venue, v: Venue)
    requires 0.0 < x1.size && 0.0 < x2.size && x1.venue == u && y.venue == v
    ensures var slices := TwoSlices(x1, x2, y, first);
            && (forall s :: s in slices ==> |s.levels| == 2)
            && var q := PairReportOf(t, if first then u else v, if first then v else u, slices);
               q.Some? && q.value.net == BothNet(t, x1, x2, y)
  {
    hide LegFee, LegCost, WalkSize, OnceNet;
    var slices := TwoSlices(x1, x2, y, first);
    var x, z := if first then 0 else 1, if first then 1 else 0;
    var n, c := x1.size + x2.size, Spent(x1, x2);
    assert slices == [slices[0], slices[1]];
    TwoSliceSums(slices[0], slices[1], x, x1.price, x2.price, x1.size, x2.size);
    TwoSliceSums(slices[0], slices[1], z, y.price, y.price, x1.size, x2.size);
    assert LegCost(slices, x) == c;
    SplitTimes(y.price, x1.size, x2.size);
    assert LegCost(slices, z) == y.price * n;
    ChargedOnce(t, n, c, LegCost(slices, z), y.price, u, v);
    assert WalkSize(slices) == n;
    if first {
      assert PairReportOf(t, u, v, slices) == Reprice(t, u, v, n, c, LegCost(slices, z));
    } else {
      assert PairReportOf(t, v, u, slices) == Reprice(t, v, u, n, LegCost(slices, z), c);
    }
  }

  lemma TwoSliceSums(a: Slice, b: Slice, j: nat, pa: real, pb: real, na: real, nb: real)
    requires j < |a.levels| && j < |b.levels| && a.size == na && b.size == nb
    requires a.levels[j].price == pa && b.levels[j].price == pb
    ensures forall s :: s in [a, b] ==> j < |s.levels|
    ensures WalkSize([a, b]) == na + nb && LegCost([a, b], j) == pa * na + pb * nb
  {
    hide LegCost;
    assert [] + [a] == [a] && [a] + [b] == [a, b] && [a, b][1..] == [b] && [b][1..] == [];
    LegCostAppend([], a, j);
    LegCostAppend([a], b, j);
    LegCostOfNone(j);
    SameTimes(a.levels[j].price, pa, a.size, na);
    SameTimes(b.levels[j].price, pb, b.size, nb);
    assert WalkSize([b]) == nb;
  }

  lemma LegCostOfNone(j: nat)
    ensures LegCost([], j) == 0.0
  {
  }

  lemma SameTimes(a: real, b: real, m: real, n: real)
    requires a == b && m == n
    ensures a * m == b * n
  {
  }

  lemma SplitTimes(p: real, a: real, b: real)
    ensures p * a + p * b == p * (a + b)
  {
  }

  lemma ChargedOnce(t: Terms, n: real, cx: real, cy: real, price: real, u: Venue, v: Venue)
    requires n > 0.0 && cy == price * n
    ensures var fees := LegFee(t, Ask(cx / n, n, u), n) + LegFee(t, Ask(cy / n, n, v), n);
            n - cx - cy - fees == OnceNet(t, n, cx, price, u, v)
  {
    hide LegFee;
    BackAgain(price, n);
    assert Ask(cy / n, n, v) == Ask(price, n, v);
  }

  lemma BackAgain(p: real, n: real)
    requires n > 0.0
    ensures (p * n) / n == p
  {
    var avg := (p * n) / n;
    assert avg * n == p * n;
    assert (avg - p) * n == 0.0;
    SignOfProduct(avg - p, n);
    SignOfProduct(p - avg, n);
  }

  lemma AverageOfOne(p: real, a: real, b: real)
    requires a > 0.0 && b > 0.0
    ensures p * a + p * b == p * (a + b) && (p * a + p * b) / (a + b) == p
  {
    SplitTimes(p, a, b);
    BackAgain(p, a + b);
  }

  // Every walk of two books reports a positive net.
  ghost predicate NetPositive(t: Terms, lads: seq<seq<Ask>>, va: Venue, vb: Venue) {
    |lads| == 2 && TwoBooks(lads[0], lads[1], va, vb) && Walk(t, lads) != [] ==>
      var slices := Walk(t, lads);
      (forall s :: s in slices ==> |s.levels| == 2)
      && var q := PairReportOf(t, va, vb, slices); q.Some? && q.value.net > 0.0
  }

  // Accepted twice, reported at a loss.
  lemma LossReported(t: Terms, x1: Ask, x2: Ask, y: Ask, first: bool)
    requires t.payout == 1.0 && 0.0 < x1.size && 0.0 < x2.size && x1.size + x2.size + RESIDUE < y.size
    requires SliceNet(t, x1, y) > 0.0 && SliceNet(t, x2, y) > 0.0 && BothNet(t, x1, x2, y) < 0.0
    requires 0.0 <= x1.price <= x2.price <= 1.0 && 0.0 <= y.price <= 1.0 && x1.venue == x2.venue
    ensures !NetPositive(t, TwoLevels(x1, x2, y, first), if first then x1.venue else y.venue, if first then y.venue
        else x1.venue)
  {
    hide Walk, LegFee, SliceNet, BothNet, PairReportOf;
    BothAccepted(t, x1, x2, y, first);
    ReportedForBoth(t, x1, x2, y, first, x1.venue, y.venue);
  }

  // ------------------------------------------------------------------ a Kalshi leg

  // Two Kalshi levels whose fees are a cent each, and three cents together.
  const THIN_1 := Ask(0.5, 0.571428, Kalshi)
  const THIN_2 := Ask(0.51, 0.571656, Kalshi)

  lemma ThinFees(t: Terms)
    requires t.fees == Charged
    ensures LegFee(t, THIN_1, 0.571428) == 0.01 && LegFee(t, THIN_2, 0.571656) == 0.01
    ensures LegFee(t, Ask((0.5 * 0.571428 + 0.51 * 0.571656) / (0.571428 + 0.571656), 1.143084, Kalshi), 1.143084)
        == 0.03
  {
  }

  // Beside another Kalshi leg at any Polymarket rate.
  lemma KalshiBesideKalshi(t: Terms)
    requires t.fees == Charged && t.payout == 1.0
    ensures !NetPositive(t, TwoLevels(THIN_1, THIN_2, Ask(0.455, 2.0, Kalshi), true), Kalshi, Kalshi)
  {
    hide LegFee, NetPositive;
    var y := Ask(0.455, 2.0, Kalshi);
    ThinFees(t);
    OtherKalshiFees(t);
    SameFee(t, y, Ask(0.455, 1.143084, Kalshi), 1.143084);
    LossReported(t, THIN_1, THIN_2, y, true);
  }

  lemma OtherKalshiFees(t: Terms)
    requires t.fees == Charged
    ensures var y := Ask(0.455, 2.0, Kalshi);
            LegFee(t, y, 0.571428) == 0.01 && LegFee(t, y, 0.571656) == 0.01 && LegFee(t, y, 1.143084) == 0.02
  {
  }

  // Beside a Polymarket leg at any rate: some price of it leaves the two slices just enough.
  lemma KalshiBesidePolymarket(t: Terms, first: bool) returns (lads: seq<seq<Ask>>)
    requires t.fees == Charged && t.payout == 1.0 && 0 <= t.bps <= 10000
    ensures !NetPositive(t, lads, if first then Kalshi else Polymarket, if first then Polymarket else Kalshi)
  {
    hide LegFee, NetPositive, Effective;
    var q := MergedLegs.PriceBetween(PmRate(t.bps), 0.47, 0.4723);
    var y := Ask(q, 2.0, Polymarket);
    lads := TwoLevels(THIN_1, THIN_2, y, first);
    ThinFees(t);
    NearRaw(t, y, 0.571428);
    NearRaw(t, y, 0.571656);
    NearRaw(t, y, 1.143084);
    SameFee(t, y, Ask(q, 1.143084, Polymarket), 1.143084);
    LossReported(t, THIN_1, THIN_2, y, first);
  }

  // What a Polymarket level costs with its charged fee, within a quantum.
  lemma NearRaw(t: Terms, y: Ask, size: real)
    requires t.fees == Charged && y.venue == Polymarket && 0.0 <= y.price <= 1.0 && size > 0.0
    ensures var cost := y.price * size + LegFee(t, y, size);
            var raw := Effective(PmRate(t.bps), y.price) * size;
            raw - PM_QUANTUM <= cost <= raw + PM_QUANTUM
  {
    hide Effective, TakerFee, RawTakerFee;
    var fee, curve := TakerFee(Polymarket, t.bps, y.price, size), RawTakerFee(Polymarket, t.bps, y.price, size);
    var money, raw := y.price * size, Effective(PmRate(t.bps), y.price) * size;
    FeeBracket(Polymarket, t.bps, y.price, size);
    assert curve - PM_QUANTUM <= fee <= curve + PM_QUANTUM;
    assert TakerRate(Polymarket, t.bps) == PmRate(t.bps);
    RawFeeLinear(Polymarket, t.bps, y.price, size);
    assert money + curve == raw;
    assert LegFee(t, y, size) == fee;
  }

  // ---------------------------------------------------------------- two paying tokens

  // Each fee rounds down by nearly half a quantum, and up for both together.
  lemma PolymarketBesidePolymarket(t: Terms) returns (lads: seq<seq<Ask>>)
    requires t.fees == Charged && t.payout == 1.0 && 0 < t.bps <= 10000
    ensures !NetPositive(t, lads, Polymarket, Polymarket)
  {
    hide LegFee, NetPositive;
    var rate := PmRate(t.bps);
    var size, gap := 0.0000596 / rate, 0.0000201 / (0.0000596 / rate);
    GapFacts(rate, size, gap);
    var x, y := Ask(0.5, size, Polymarket), Ask(0.5 - gap, 3.0 * size, Polymarket);
    lads := TwoLevels(x, x, y, true);
    TokenFees(t, rate, size, gap);
    AverageOfOne(0.5, size, size);
    LossReported(t, x, x, y, true);
  }

  lemma GapFacts(rate: real, size: real, gap: real)
    requires 0.0 < rate <= 1.0 && size == 0.0000596 / rate && gap == 0.0000201 / (0.0000596 / rate)
    ensures size >= 0.0000596 && rate * size == 0.0000596 && gap * size == 0.0000201 && 0.0 < gap <= 0.338
  {
    assert size * rate == 0.0000596;
    SignOfProduct(size, rate);
    MulMono(rate, 1.0, size);
    assert gap * size == 0.0000201;
    SignOfProduct(gap, size);
    if gap > 0.338 { MulMono(0.338, gap, size); MulMono(0.0000596, size, 0.338); }
  }

  lemma TokenFees(t: Terms, rate: real, size: real, gap: real)
    requires t.fees == Charged && 0 < t.bps <= 10000 && rate == PmRate(t.bps)
    requires size > 0.0 && rate * size == 0.0000596 && 0.0 < gap <= 0.338
    ensures var x, y := Ask(0.5, size, Polymarket), Ask(0.5 - gap, 3.0 * size, Polymarket);
            && LegFee(t, x, size) == PM_QUANTUM && LegFee(t, y, size) == PM_QUANTUM
            && (forall a: Ask, n: real :: a.venue == Polymarket && a.price == 0.5 && n == 2.0 * size ==>
              LegFee(t, a, n) >= 3.0 * PM_QUANTUM)
            && (forall a: Ask, n: real :: a.venue == Polymarket && a.price == 0.5 - gap && n == 2.0 * size ==>
              LegFee(t, a, n) >= 2.0 * PM_QUANTUM)
  {
    var q := 0.5 - gap;
    assert q * (1.0 - q) == 0.25 - gap * gap;
    MulMono(gap, 0.338, gap);
    assert gap * gap <= 0.114244;
    TokenRaw(rate, size, 0.5, 0.25);
    TokenRaw(rate, size, q, 0.25 - gap * gap);
  }

  lemma TokenRaw(rate: real, size: real, p: real, bow: real)
    requires rate * size == 0.0000596 && p * (1.0 - p) == bow
    ensures Quadratic(rate, size, p) == 0.0000596 * bow && Quadratic(rate, 2.0 * size, p) == 0.0001192 * bow
  {
    assert rate * (2.0 * size) == 2.0 * (rate * size);
  }

  // --------------------------------------------------------------------- no fee at all

  lemma {:induction false} FreeLegFees(t: Terms, slices: seq<Slice>, j: nat)
    requires t.bps == 0 && t.fees == Charged && Pairs(slices, Polymarket, Polymarket) && j < 2
    ensures LegFees(t, slices, j) == 0.0
  {
    if slices != [] {
      PairsTail(slices, Polymarket, Polymarket);
      FreeLegFees(t, slices[1..], j);
    }
  }

  lemma FreeNetPositive(t: Terms, lads: seq<seq<Ask>>)
    requires t == Terms(Charged, 0, 1.0)
    ensures NetPositive(t, lads, Polymarket, Polymarket)
  {
    hide Walk, WalkSize, LegCost, WalkMargin, LegFees, Pairs, TwoBooks, Margin;
    if |lads| == 2 && TwoBooks(lads[0], lads[1], Polymarket, Polymarket) && Walk(t, lads) != [] {
      assert lads == [lads[0], lads[1]];
      var slices := Walk(t, lads);
      LegFacts(t, lads[0], lads[1], Polymarket, Polymarket, 0);
      FreeLegFees(t, slices, 0);
      FreeLegFees(t, slices, 1);
      MarginByLeg(t, slices, Polymarket, Polymarket);
      MarginsPositive(t, slices);
    }
  }

  // ------------------------------------------------------------------------ the answer

  // Charged fees, any rate, any two venues: the reported net is positive for all books if
  // and only if no leg can be charged a rounded fee.
  lemma NetAlwaysPositiveIff(t: Terms, va: Venue, vb: Venue)
    requires t.fees == Charged && t.payout == 1.0 && 0 <= t.bps <= 10000
    ensures (forall lads :: NetPositive(t, lads, va, vb)) <==> va == Polymarket && vb == Polymarket && t.bps == 0
  {
    hide NetPositive;
    if va == Polymarket && vb == Polymarket && t.bps == 0 {
      forall lads ensures NetPositive(t, lads, va, vb) { FreeNetPositive(t, lads); }
    } else if va == Kalshi && vb == Kalshi {
      KalshiBesideKalshi(t);
    } else if va == Polymarket && vb == Polymarket {
      var lads := PolymarketBesidePolymarket(t);
    } else {
      var lads := KalshiBesidePolymarket(t, va == Kalshi);
    }
  }

  // ------------------------------------------------------------- profit left behind

  // Nor is there a bound below: a sliver whose fee rounds to a cent stops the charged walk
  // in front of any amount of profit.
  lemma ChargedWalkLeavesAny(profit: real) returns (lads: seq<seq<Ask>>)
    requires profit >= 0.0
    ensures var raw := Terms(Unrounded, 0, 1.0);
            && Walk(Terms(Charged, 0, 1.0), lads) == []
            && WalkMargin(raw, Walk(raw, lads)) > profit
  {
    hide Walk, LegFee;
    var t, raw := Terms(Charged, 0, 1.0), Terms(Unrounded, 0, 1.0);
    var size := 100.0 * profit + 1.0;
    var sliver, bulk, other := Ask(0.5, 0.1, Kalshi), Ask(0.5, size, Kalshi), Ask(0.465, size + 1.0, Polymarket);
    lads := [[sliver, bulk], [other]];
    SliverCosts(t, raw, size);
    PairRound(t, [sliver, bulk], [other]);
    BothAccepted(raw, sliver, bulk, other, true);
    var slices := TwoSlices(sliver, bulk, other, true);
    assert slices[1..][1..] == [];
    PairSums(raw, sliver, other, 0.1);
    PairSums(raw, bulk, other.(size := other.size - 0.1), size);
    SameFee(raw, other, other.(size := other.size - 0.1), size);
    assert WalkMargin(raw, slices[1..]) == SliceNet(raw, bulk, other);
  }

  lemma SliverCosts(t: Terms, raw: Terms, size: real)
    requires t == Terms(Charged, 0, 1.0) && raw == Terms(Unrounded, 0, 1.0) && size >= 1.0
    ensures var sliver, bulk, other := Ask(0.5, 0.1, Kalshi), Ask(0.5, size, Kalshi),
        Ask(0.465, size + 1.0, Polymarket);
            && PairMargin(t, sliver, other, 0.1) <= 0.0
            && SliceNet(raw, sliver, other) > 0.0 && SliceNet(raw, bulk, other) == 0.0175 * size
  {
  }
}
