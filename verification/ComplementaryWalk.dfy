/** The two-venue complementary arbitrage, walked twice in the repository: once by the
    live probe, which stops at the first unprofitable slice and reprices its average,
    and once by the analyzer, which records every profitable slice. */
module ComplementaryWalk {
  import opened Ladders
  import opened VenueFees
  import opened Wrappers
  import opened BasketWalk
  import opened BasketOptimality

  function Tag(ls: seq<Level>, venue: Venue): (lad: seq<Ask>)
    ensures |lad| == |ls|
    ensures forall i :: 0 <= i < |ls| ==> lad[i] == Ask(ls[i].price, ls[i].size, venue)
  {
    if ls == [] then [] else [Ask(ls[0].price, ls[0].size, venue)] + Tag(ls[1..], venue)
  }

  // ------------------------------------------------------ the walk on two ladders

  function PairMargin(t: Terms, a: Ask, b: Ask, size: real): real {
    (t.payout - a.price - b.price) * size - LegFee(t, a, size) - LegFee(t, b, size)
  }

  lemma PairHeads(t: Terms, A: seq<Ask>, B: seq<Ask>)
    requires A != [] && B != []
    ensures AllOpen([A, B]) && Heads([A, B]) == [A[0], B[0]]
    ensures MinSize([A[0], B[0]]) == Min(A[0].size, B[0].size)
    ensures Skip([A, B]) == [SkipOne(A), SkipOne(B)]
  {
    assert [A[0], B[0]][1..] == [B[0]];
  }

  lemma PairSums(t: Terms, a: Ask, b: Ask, size: real)
    ensures SumPrices([a, b]) == a.price + b.price
    ensures SumFees(t, [a, b], size) == LegFee(t, a, size) + LegFee(t, b, size)
    ensures Margin(t, [a, b], size) == PairMargin(t, a, b, size)
  {
    hide LegFee;
    assert [a, b][1..] == [b] && [b][1..] == [];
    assert SumPrices([b]) == b.price + SumPrices([]) == b.price;
    assert SumFees(t, [b], size) == LegFee(t, b, size) + SumFees(t, [], size) == LegFee(t, b, size);
    SplitPrices(t.payout, a.price, b.price, size);
  }

  lemma SplitPrices(payout: real, p: real, q: real, size: real)
    ensures (payout - (p + q)) * size == (payout - p - q) * size
  {
  }

  lemma PairConsume(A: seq<Ask>, B: seq<Ask>, size: real)
    requires A != [] && B != []
    ensures AllOpen([A, B]) && Consume([A, B], size) == [ConsumeOne(A, size), ConsumeOne(B, size)]
  {
  }

  // One round of the walk on two ladders.
  lemma PairRound(t: Terms, A: seq<Ask>, B: seq<Ask>)
    ensures A == [] || B == [] ==> Walk(t, [A, B]) == []
    ensures A != [] && B != [] ==>
      var size := Min(A[0].size, B[0].size);
      Walk(t, [A, B]) == if size <= 0.0 then Walk(t, [SkipOne(A), SkipOne(B)])
                         else if PairMargin(t, A[0], B[0], size) <= 0.0 then []
                         else [Slice([A[0], B[0]], size)] + Walk(t, [ConsumeOne(A, size), ConsumeOne(B, size)])
  {
    hide Walk, Skip, Consume, SkipOne, ConsumeOne, Margin, PairMargin, MinSize, Heads;
    if A == [] || B == [] {
      assert [A, B][0] == A && [A, B][1] == B;
      WalkOver(t, [A, B]);
    } else {
      var size := Min(A[0].size, B[0].size);
      PairHeads(t, A, B);
      PairSums(t, A[0], B[0], size);
      PairConsume(A, B, size);
      WalkRound(t, [A, B]);
    }
  }

  lemma PairShrinks(A: seq<Ask>, B: seq<Ask>)
    requires A != [] && B != []
    ensures var size := Min(A[0].size, B[0].size);
            if size <= 0.0 then |SkipOne(A)| + |SkipOne(B)| < |A| + |B|
            else |ConsumeOne(A, size)| + |ConsumeOne(B, size)| < |A| + |B|
  {
  }

  // ------------------------------------------------------------- the probe's loop

  datatype PairReport = PairReport(size: real, cost: real, net: real, avgA: real, avgB: real, netEdge: real)

  // The figures reported for a finished walk: fees are charged again, once, at the averages.
  function Reprice(t: Terms, va: Venue, vb: Venue, n: real, ca: real, cb: real): Option<PairReport> {
    if n <= 0.0 then None
    else
      var fees := LegFee(t, Ask(ca / n, n, va), n) + LegFee(t, Ask(cb / n, n, vb), n);
      var net := (n - ca - cb) - fees;
      Some(PairReport(n, ca + cb, net, ca / n, cb / n, if ca + cb != 0.0 then net / (ca + cb) else 0.0))
  }

  function PairReportOf(t: Terms, va: Venue, vb: Venue, slices: seq<Slice>): Option<PairReport>
    requires forall s :: s in slices ==> |s.levels| == 2
  {
    Reprice(t, va, vb, WalkSize(slices), LegCost(slices, 0), LegCost(slices, 1))
  }

  // The reported figures give back what was paid: leg by leg at its average, in all, and
  // against the edge; each leg is charged once, on its own venue, at that average.
  lemma PairReportCoheres(t: Terms, va: Venue, vb: Venue, slices: seq<Slice>)
    requires forall s :: s in slices ==> |s.levels| == 2
    ensures var q, n := PairReportOf(t, va, vb, slices), WalkSize(slices);
            && (q.Some? <==> n > 0.0)
            && (q.Some? ==>
                  var p := q.value;
                  && p.size == n && p.avgA * n == LegCost(slices, 0) && p.avgB * n == LegCost(slices, 1)
                  && p.cost == LegCost(slices, 0) + LegCost(slices, 1)
                  && p.net == n - p.cost - LegFee(t, Ask(p.avgA, n, va), n) - LegFee(t, Ask(p.avgB, n, vb), n)
                  && if p.cost == 0.0 then p.netEdge == 0.0 else p.netEdge * p.cost == p.net)
  {
    hide LegFee, WalkSize, LegCost;
    var q, n := PairReportOf(t, va, vb, slices), WalkSize(slices);
    if q.Some? {
      QuotientTimes(LegCost(slices, 0), n);
      QuotientTimes(LegCost(slices, 1), n);
      if q.value.cost != 0.0 { QuotientTimes(q.value.net, q.value.cost); }
    }
  }

  method WalkComplementary(a: seq<Level>, b: seq<Level>, aIsKalshi: bool, bIsKalshi: bool, bps: int)
    returns (r: Option<PairReport>)
    ensures var t := Terms(Charged, bps, 1.0);
            var va, vb := if aIsKalshi then Kalshi else Polymarket, if bIsKalshi then Kalshi else Polymarket;
            r == PairReportOf(t, va, vb, Walk(t, [Tag(a, va), Tag(b, vb)]))
  {
    hide Walk, WalkSize, LegCost, Reprice, LegFee, ConsumeOne, SkipOne, Tag;
    var t := Terms(Charged, bps, 1.0);
    var va, vb := if aIsKalshi then Kalshi else Polymarket, if bIsKalshi then Kalshi else Polymarket;
    var qa, qb := Tag(a, va), Tag(b, vb);
    var ia, ib := 0, 0;
    var n, ca, cb := 0.0, 0.0, 0.0;
    ghost var done: seq<Slice> := [];
    ghost var target := Walk(t, [qa, qb]);
    NothingBought();
    assert qa[0..] == qa && qb[0..] == qb;
    while ia < |qa| && ib < |qb|
      invariant 0 <= ia <= |qa| && 0 <= ib <= |qb|
      invariant forall s :: s in done ==> |s.levels| == 2
      invariant target == done + Walk(t, [qa[ia..], qb[ib..]])
      invariant n == WalkSize(done) && ca == LegCost(done, 0) && cb == LegCost(done, 1)
      decreases |qa| - ia + |qb| - ib
    {
      var x, y := qa[ia], qb[ib];
      var step := Min(x.size, y.size);
      assert qa[ia..][0] == x && qb[ib..][0] == y;
      if step <= 0.0 {
        PairRound(t, qa[ia..], qb[ib..]);
        SkipInPlace(qa, ia);
        SkipInPlace(qb, ib);
        if x.size <= 0.0 { ia := ia + 1; }
        if y.size <= 0.0 { ib := ib + 1; }
        continue;
      }
      var fees := LegFee(t, x, step) + LegFee(t, y, step);
      assert PairMargin(t, x, y, step) == (1.0 - x.price - y.price) * step - fees;
      if (1.0 - x.price - y.price) * step - fees <= 0.0 {
        PairRound(t, qa[ia..], qb[ib..]);
        assert done + [] == done;
        return Reprice(t, va, vb, n, ca, cb);
      }
      n := n + step;
      ca := ca + x.price * step;
      cb := cb + y.price * step;
      SliceBought(t, done, qa[ia..], qb[ib..]);
      done := done + [Slice([x, y], step)];
      ShrinkLevel(qa, ia, step);
      ShrinkLevel(qb, ib, step);
      qa := qa[ia := x.(size := x.size - step)];
      qb := qb[ib := y.(size := y.size - step)];
      if qa[ia].size <= RESIDUE { ia := ia + 1; }
      if qb[ib].size <= RESIDUE { ib := ib + 1; }
    }
    PairRound(t, qa[ia..], qb[ib..]);
    assert done + [] == done;
    r := Reprice(t, va, vb, n, ca, cb);
  }

  // Accepting a slice moves it from what is still to walk to what is done.
  lemma SliceBought(t: Terms, done: seq<Slice>, A: seq<Ask>, B: seq<Ask>)
    requires A != [] && B != [] && forall s :: s in done ==> |s.levels| == 2
    requires var size := Min(A[0].size, B[0].size); size > 0.0 && PairMargin(t, A[0], B[0], size) > 0.0
    ensures var size := Min(A[0].size, B[0].size);
            var more := done + [Slice([A[0], B[0]], size)];
            && (forall s :: s in more ==> |s.levels| == 2)
            && done + Walk(t, [A, B]) == more + Walk(t, [ConsumeOne(A, size), ConsumeOne(B, size)])
            && WalkSize(more) == WalkSize(done) + size
            && LegCost(more, 0) == LegCost(done, 0) + A[0].price * size
            && LegCost(more, 1) == LegCost(done, 1) + B[0].price * size
  {
    hide Walk, WalkSize, LegCost, PairMargin, ConsumeOne;
    var size := Min(A[0].size, B[0].size);
    var s := Slice([A[0], B[0]], size);
    PairRound(t, A, B);
    WalkSizeAppend(done, s);
    LegCostAppend(done, s, 0);
    LegCostAppend(done, s, 1);
    assert done + ([s] + Walk(t, [ConsumeOne(A, size), ConsumeOne(B, size)]))
        == (done + [s]) + Walk(t, [ConsumeOne(A, size), ConsumeOne(B, size)]);
  }

  lemma NothingBought()
    ensures WalkSize([]) == 0.0 && LegCost([], 0) == 0.0 && LegCost([], 1) == 0.0
  {
  }

  lemma SkipInPlace(lad: seq<Ask>, i: nat)
    requires i < |lad|
    ensures lad[if lad[i].size <= 0.0 then i + 1 else i..] == SkipOne(lad[i..])
  {
    assert lad[i..][0] == lad[i] && lad[i..][1..] == lad[i + 1..];
  }

  // -------------------------------------------------- a unified book cannot arb itself

  // No live level of one side and live level of the other sum below a dollar.
  ghost predicate NoCross(A: seq<Ask>, B: seq<Ask>) {
    forall i, j :: 0 <= i < |A| && 0 <= j < |B| && A[i].size > 0.0 && B[j].size > 0.0
      ==> A[i].price + B[j].price >= 1.0
  }

  lemma {:induction false} NoCrossNoWalk(t: Terms, A: seq<Ask>, B: seq<Ask>)
    requires t.payout == 1.0 && NoCross(A, B) && Probabilities(A) && Probabilities(B)
    ensures Walk(t, [A, B]) == []
    decreases |A| + |B|
  {
    hide Walk, LegFee;
    PairRound(t, A, B);
    if A != [] && B != [] {
      var size := Min(A[0].size, B[0].size);
      if size <= 0.0 {
        PairShrinks(A, B);
        NoCrossNoWalk(t, SkipOne(A), SkipOne(B));
      } else {
        LegFeeNonNegative(t, A[0], size);
        LegFeeNonNegative(t, B[0], size);
        NoProfit(t.payout - A[0].price - B[0].price, size, LegFee(t, A[0], size), LegFee(t, B[0], size));
      }
    }
  }

  lemma NoProfit(unit: real, size: real, feeA: real, feeB: real)
    requires unit <= 0.0 && size >= 0.0 && feeA >= 0.0 && feeB >= 0.0
    ensures unit * size - feeA - feeB <= 0.0
  {
    MulMono(unit, 0.0, size);
  }

  lemma LegFeeNonNegative(t: Terms, a: Ask, size: real)
    requires size >= 0.0 && 0.0 <= a.price <= 1.0
    ensures LegFee(t, a, size) >= 0.0
  {
    FeeBracket(a.venue, t.bps, a.price, size);
    QuadraticNonNegative(TakerRate(a.venue, t.bps), size, a.price);
  }

  // Kalshi keeps bids only: the asks of one side are the complements of the other's bids.
  function Complement(bids: seq<Level>): (asks: seq<Level>)
    ensures |asks| == |bids|
    ensures forall i :: 0 <= i < |bids| ==> asks[i] == Level(1.0 - bids[i].price, bids[i].size)
  {
    if bids == [] then [] else [Level(1.0 - bids[0].price, bids[0].size)] + Complement(bids[1..])
  }

  function KalshiAsks(oppositeBids: seq<Level>): seq<Level> { SortByPrice(Complement(oppositeBids)) }

  ghost predicate Uncrossed(yesBids: seq<Level>, noBids: seq<Level>) {
    forall y, n :: y in yesBids && n in noBids && y.size > 0.0 && n.size > 0.0 ==> y.price + n.price <= 1.0
  }

  lemma AskHasBid(bids: seq<Level>, k: nat)
    requires k < |KalshiAsks(bids)|
    ensures exists b :: b in bids && KalshiAsks(bids)[k] == Level(1.0 - b.price, b.size)
  {
    SortCorrect(Complement(bids));
    var asks := KalshiAsks(bids);
    assert asks[k] in multiset(asks);
    var i :| 0 <= i < |Complement(bids)| && Complement(bids)[i] == asks[k];
    assert bids[i] in bids;
  }

  // An uncrossed unified book gives neither walk anything, at any sizes and depths,
  // under charged or unrounded fees.
  lemma UnifiedBookCannotArb(t: Terms, yesBids: seq<Level>, noBids: seq<Level>)
    requires t.payout == 1.0 && Uncrossed(yesBids, noBids)
    requires forall b :: b in yesBids + noBids ==> 0.0 <= b.price <= 1.0
    ensures var yesAsks, noAsks := Tag(KalshiAsks(noBids), Kalshi), Tag(KalshiAsks(yesBids), Kalshi);
            var slices := Walk(t, [yesAsks, noAsks]);
            slices == [] && Report(t, slices, 2) == None && PairReportOf(t, Kalshi, Kalshi, slices) == None
  {
    hide Walk, KalshiAsks;
    var yesAsks, noAsks := Tag(KalshiAsks(noBids), Kalshi), Tag(KalshiAsks(yesBids), Kalshi);
    forall i, j | 0 <= i < |yesAsks| && 0 <= j < |noAsks|
      ensures 0.0 <= yesAsks[i].price <= 1.0 && 0.0 <= noAsks[j].price <= 1.0
      ensures yesAsks[i].size > 0.0 && noAsks[j].size > 0.0 ==> yesAsks[i].price + noAsks[j].price >= 1.0
    {
      AskHasBid(noBids, i);
      AskHasBid(yesBids, j);
      var n :| n in noBids && KalshiAsks(noBids)[i] == Level(1.0 - n.price, n.size);
      var y :| y in yesBids && KalshiAsks(yesBids)[j] == Level(1.0 - y.price, y.size);
      assert n in yesBids + noBids && y in yesBids + noBids;
    }
    if yesAsks == [] || noAsks == [] { PairRound(t, yesAsks, noAsks); }
    else {
      assert Probabilities(yesAsks) && Probabilities(noAsks);
      NoCrossNoWalk(t, yesAsks, noAsks);
    }
    NothingDone(t, 2);
    NothingBought();
  }
}
