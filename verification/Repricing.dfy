/** The probe reports a whole walk at its average prices. Because the fee is concave in
    price this never flatters the walk, and before rounding it never turns it into a loss. */
module Repricing {
  import opened Ladders
  import opened VenueFees
  import opened BasketWalk
  import opened BasketOptimality
  import opened ComplementaryWalk
  import AnalyzerWalk

  // -------------------------------------------------------------- concavity

  function SquareSum(fs: seq<Level>): real {
    if fs == [] then 0.0 else fs[0].size * (fs[0].price * fs[0].price) + SquareSum(fs[1..])
  }

  function FillFees(rate: real, fs: seq<Level>): real {
    if fs == [] then 0.0 else Quadratic(rate, fs[0].size, fs[0].price) + FillFees(rate, fs[1..])
  }

  ghost predicate Positive(fs: seq<Level>) { forall i :: 0 <= i < |fs| ==> fs[i].size > 0.0 }

  lemma {:induction false} FillFeesClosed(rate: real, fs: seq<Level>)
    ensures FillFees(rate, fs) == rate * (Notional(fs) - SquareSum(fs))
  {
    if fs != [] {
      FillFeesClosed(rate, fs[1..]);
      QuadraticExpand(rate, fs[0].size, fs[0].price, Notional(fs[1..]) - SquareSum(fs[1..]));
    }
  }

  lemma QuadraticExpand(rate: real, size: real, price: real, rest: real)
    ensures Quadratic(rate, size, price) + rate * rest
         == rate * (price * size - size * (price * price) + rest)
  {
    assert rate * size * (price * (1.0 - price)) == rate * (size * (price * (1.0 - price)));
    assert size * (price * (1.0 - price)) == price * size - size * (price * price);
  }

  // Cauchy-Schwarz for weighted prices: (sum s*p)^2 <= (sum s) * (sum s*p^2).
  lemma {:induction false} WeightedSquares(fs: seq<Level>)
    requires Positive(fs)
    ensures TotalSize(fs) >= 0.0 && (fs != [] ==> TotalSize(fs) > 0.0)
    ensures Notional(fs) * Notional(fs) <= TotalSize(fs) * SquareSum(fs)
  {
    if fs != [] {
      var rest := fs[1..];
      WeightedSquares(rest);
      if rest == [] {
        var s, p := fs[0].size, fs[0].price;
        assert (p * s) * (p * s) == s * (s * (p * p));
      } else {
        AddWeight(TotalSize(rest), Notional(rest), SquareSum(rest), fs[0].size, fs[0].price);
      }
    }
  }

  lemma AddWeight(n: real, c: real, q: real, s: real, p: real)
    requires n > 0.0 && s > 0.0 && c * c <= n * q
    ensures (p * s + c) * (p * s + c) <= (s + n) * (s * (p * p) + q)
  {
    // The right side exceeds the left by (n*q - c*c) + s * d with d as below.
    var d := n * (p * p) + q - 2.0 * (c * p);
    assert n * d >= 0.0 by {
      var gap := n * p - c;
      SquareNonNegative(gap);
      assert n * d == gap * gap + (n * q - c * c);
    }
    SignNonNegative(n, d);
    ProductNonNegative(s, d);
    assert (s + n) * (s * (p * p) + q) - (p * s + c) * (p * s + c) == (n * q - c * c) + s * d;
  }

  lemma SquareNonNegative(x: real)
    ensures x * x >= 0.0
  {
  }

  lemma SignNonNegative(n: real, d: real)
    requires n > 0.0 && n * d >= 0.0
    ensures d >= 0.0
  {
    if d < 0.0 { ProductPositive(n, -d); }
  }

  // The raw fee at the average price is at least the sum of the per-slice raw fees.
  lemma AverageFeeIsLarger(rate: real, fs: seq<Level>)
    requires rate >= 0.0 && fs != [] && Positive(fs)
    ensures TotalSize(fs) > 0.0
    ensures Quadratic(rate, TotalSize(fs), Notional(fs) / TotalSize(fs)) >= FillFees(rate, fs)
  {
    WeightedSquares(fs);
    FillFeesClosed(rate, fs);
    AverageFee(rate, TotalSize(fs), Notional(fs), SquareSum(fs));
  }

  lemma AverageFee(rate: real, n: real, c: real, q: real)
    requires rate >= 0.0 && n > 0.0 && c * c <= n * q
    ensures Quadratic(rate, n, c / n) >= rate * (c - q)
  {
    var avg := c / n;
    assert n * avg == c;
    var excess := q - c * avg;
    assert n * excess == n * q - c * c by { assert n * (c * avg) == c * (n * avg); }
    SignNonNegative(n, excess);
    ProductNonNegative(rate, excess);
    assert rate * n * (avg * (1.0 - avg)) == rate * (c - c * avg) by {
      assert n * (avg * (1.0 - avg)) == c - c * avg by { assert n * (avg * avg) == c * avg; }
      assert rate * n * (avg * (1.0 - avg)) == rate * (n * (avg * (1.0 - avg)));
    }
    assert rate * (c - c * avg) == rate * (c - q) + rate * excess;
  }

  // ----------------------------------------------------------- legs of a walk

  function LegFills(slices: seq<Slice>, j: nat): (fs: seq<Level>)
    requires forall s :: s in slices ==> j < |s.levels|
    ensures |fs| == |slices|
    ensures forall i :: 0 <= i < |fs| ==>
      (slices[i] in slices && fs[i] == Level(slices[i].levels[j].price, slices[i].size))
  {
    if slices == [] then []
    else
      assert slices[0] in slices;
      assert forall s :: s in slices[1..] ==> s in slices;
      [Level(slices[0].levels[j].price, slices[0].size)] + LegFills(slices[1..], j)
  }

  lemma {:induction false} LegFillsMeasure(slices: seq<Slice>, j: nat)
    requires forall s :: s in slices ==> j < |s.levels|
    ensures TotalSize(LegFills(slices, j)) == WalkSize(slices)
    ensures Notional(LegFills(slices, j)) == LegCost(slices, j)
  {
    if slices != [] {
      LegCostUnfold(slices, j);
      LegFillsMeasure(slices[1..], j);
      assert LegFills(slices, j)[1..] == LegFills(slices[1..], j);
    }
  }

  // Fees leg j paid slice by slice.
  function LegFees(t: Terms, slices: seq<Slice>, j: nat): real
    requires forall s :: s in slices ==> j < |s.levels|
  {
    if slices == [] then 0.0
    else
      assert slices[0] in slices;
      LegFee(t, slices[0].levels[j], slices[0].size) + LegFees(t, slices[1..], j)
  }

  ghost predicate Pairs(slices: seq<Slice>, va: Venue, vb: Venue) {
    forall s :: s in slices ==>
      (|s.levels| == 2 && s.size > 0.0 && s.levels[0].venue == va && s.levels[1].venue == vb
       && 0.0 <= s.levels[0].price <= 1.0 && 0.0 <= s.levels[1].price <= 1.0)
  }

  lemma PairsTail(slices: seq<Slice>, va: Venue, vb: Venue)
    requires Pairs(slices, va, vb) && slices != []
    ensures Pairs(slices[1..], va, vb) && slices[0] in slices
    ensures forall s :: s in slices ==> |s.levels| == 2
  {
    assert forall s :: s in slices[1..] ==> s in slices;
  }

  lemma {:induction false} MarginByLeg(t: Terms, slices: seq<Slice>, va: Venue, vb: Venue)
    requires t.payout == 1.0 && Pairs(slices, va, vb)
    ensures WalkMargin(t, slices)
         == WalkSize(slices) - LegCost(slices, 0) - LegCost(slices, 1) - LegFees(t, slices, 0) - LegFees(t, slices, 1)
  {
    hide Margin, LegFee, Pairs;
    if slices != [] {
      var s := slices[0];
      PairsTail(slices, va, vb);
      MarginByLeg(t, slices[1..], va, vb);
      OneSlice(t, slices, va, vb);
    }
  }

  lemma OneSlice(t: Terms, slices: seq<Slice>, va: Venue, vb: Venue)
    requires t.payout == 1.0 && Pairs(slices, va, vb) && slices != []
    ensures slices[0] in slices && |slices[0].levels| == 2
    ensures var (s, a, b) := (slices[0], slices[0].levels[0], slices[0].levels[1]);
            Margin(t, s.levels, s.size)
            == s.size - a.price * s.size - b.price * s.size - LegFee(t, a, s.size) - LegFee(t, b, s.size)
    ensures LegCost(slices, 0) == slices[0].levels[0].price * slices[0].size + LegCost(slices[1..], 0)
    ensures LegCost(slices, 1) == slices[0].levels[1].price * slices[0].size + LegCost(slices[1..], 1)
  {
    hide LegFee, Margin, PairMargin, Gross, LegCost;
    var s := slices[0];
    assert s in slices;
    assert s.levels == [s.levels[0], s.levels[1]];
    PairSums(t, s.levels[0], s.levels[1], s.size);
    MarginIsGross(t, s.levels[0], s.levels[1], s.size);
    GrossSplits(s.levels[0].price, s.levels[1].price, s.size);
    LegCostUnfold(slices, 0);
    LegCostUnfold(slices, 1);
  }

  // The margin of a pair before its fees.
  function Gross(payout: real, p: real, q: real, size: real): real { (payout - p - q) * size }

  lemma GrossSplits(p: real, q: real, size: real)
    ensures Gross(1.0, p, q, size) == size - p * size - q * size
  {
  }

  lemma MarginIsGross(t: Terms, a: Ask, b: Ask, size: real)
    ensures PairMargin(t, a, b, size)
         == Gross(t.payout, a.price, b.price, size) - LegFee(t, a, size) - LegFee(t, b, size)
  {
    hide LegFee;
  }

  // Slice-by-slice raw fees are the fees of the leg's fills.
  lemma {:induction false} RawLegFees(t: Terms, slices: seq<Slice>, va: Venue, vb: Venue, j: nat)
    requires t.fees == Unrounded && Pairs(slices, va, vb) && j < 2
    ensures LegFees(t, slices, j) == FillFees(TakerRate(if j == 0 then va else vb, t.bps), LegFills(slices, j))
  {
    hide Quadratic, Pairs;
    if slices != [] {
      PairsTail(slices, va, vb);
      RawLegFees(t, slices[1..], va, vb, j);
      assert LegFills(slices, j)[1..] == LegFills(slices[1..], j);
      FirstVenue(slices, va, vb);
    }
  }

  lemma FirstVenue(slices: seq<Slice>, va: Venue, vb: Venue)
    requires Pairs(slices, va, vb) && slices != []
    ensures slices[0] in slices && |slices[0].levels| == 2 && slices[0].size > 0.0
    ensures slices[0].levels[0].venue == va && slices[0].levels[1].venue == vb
    ensures 0.0 <= slices[0].levels[0].price <= 1.0 && 0.0 <= slices[0].levels[1].price <= 1.0
  {
    assert slices[0] in slices;
  }

  // ------------------------------------------------- where a walk's slices come from

  ghost predicate Drawn(lad: seq<Ask>, a: Ask) {
    exists i :: 0 <= i < |lad| && lad[i].price == a.price && lad[i].venue == a.venue
  }

  ghost predicate DrawnFrom(A: seq<Ask>, B: seq<Ask>, s: Slice) {
    |s.levels| == 2 && s.size > 0.0 && Drawn(A, s.levels[0]) && Drawn(B, s.levels[1])
  }

  lemma DrawnFromLarger(A: seq<Ask>, B: seq<Ask>, size: real)
    requires A != [] && B != []
    ensures Drawn(A, A[0]) && Drawn(B, B[0])
    ensures forall s :: DrawnFrom(ConsumeOne(A, size), ConsumeOne(B, size), s) ==> DrawnFrom(A, B, s)
    ensures forall s :: DrawnFrom(SkipOne(A), SkipOne(B), s) ==> DrawnFrom(A, B, s)
  {
    hide Drawn;
    DrawnAtHead(A);
    DrawnAtHead(B);
    forall s | DrawnFrom(ConsumeOne(A, size), ConsumeOne(B, size), s) ensures DrawnFrom(A, B, s) {
      DrawnLater(A, ConsumeOne(A, size), s.levels[0]);
      DrawnLater(B, ConsumeOne(B, size), s.levels[1]);
    }
    forall s | DrawnFrom(SkipOne(A), SkipOne(B), s) ensures DrawnFrom(A, B, s) {
      DrawnLater(A, SkipOne(A), s.levels[0]);
      DrawnLater(B, SkipOne(B), s.levels[1]);
    }
  }

  lemma DrawnAtHead(lad: seq<Ask>)
    requires lad != []
    ensures Drawn(lad, lad[0])
  {
  }

  // `rest` is what stays of `lad` after its head shrank or went.
  lemma DrawnLater(lad: seq<Ask>, rest: seq<Ask>, a: Ask)
    requires lad != [] && Drawn(rest, a)
    requires rest == lad || rest == lad[1..] || (rest != [] && rest[1..] == lad[1..] && rest[0].price == lad[0].price
                                                  && rest[0].venue == lad[0].venue)
    ensures Drawn(lad, a)
  {
    var i :| 0 <= i < |rest| && rest[i].price == a.price && rest[i].venue == a.venue;
    var k := i + |lad| - |rest|;
    if rest != lad && |rest| == |lad| && i > 0 { assert rest[i] == rest[1..][i - 1] == lad[1..][i - 1]; }
    assert lad[k].price == a.price && lad[k].venue == a.venue;
  }

  lemma {:induction false} WalkDraws(t: Terms, A: seq<Ask>, B: seq<Ask>)
    ensures forall s :: s in Walk(t, [A, B]) ==> DrawnFrom(A, B, s)
    decreases |A| + |B|
  {
    hide Walk, PairMargin, ConsumeOne, SkipOne, Drawn;
    PairRound(t, A, B);
    if A != [] && B != [] {
      var size := Min(A[0].size, B[0].size);
      PairShrinks(A, B);
      DrawnFromLarger(A, B, size);
      if size <= 0.0 {
        WalkDraws(t, SkipOne(A), SkipOne(B));
      } else if PairMargin(t, A[0], B[0], size) > 0.0 {
        WalkDraws(t, ConsumeOne(A, size), ConsumeOne(B, size));
      }
    }
  }

  lemma WalkIsPairs(t: Terms, A: seq<Ask>, B: seq<Ask>, va: Venue, vb: Venue)
    requires OnVenue(A, va) && OnVenue(B, vb)
    ensures Pairs(Walk(t, [A, B]), va, vb)
  {
    hide Walk;
    WalkDraws(t, A, B);
  }

  ghost predicate OnVenue(lad: seq<Ask>, v: Venue) {
    SingleVenue(lad) && forall i :: 0 <= i < |lad| ==> lad[i].venue == v
  }

  // The last slice is the dearest on both legs.
  ghost predicate LastDearest(slices: seq<Slice>) {
    slices != [] ==>
      forall s :: s in slices ==>
        (|s.levels| == 2 == |slices[|slices| - 1].levels|
         && s.levels[0].price <= slices[|slices| - 1].levels[0].price
         && s.levels[1].price <= slices[|slices| - 1].levels[1].price)
  }

  lemma {:induction false} WalkClimbs(t: Terms, A: seq<Ask>, B: seq<Ask>)
    requires AnalyzerWalk.PricesAscend(A) && AnalyzerWalk.PricesAscend(B)
    ensures LastDearest(Walk(t, [A, B]))
    decreases |A| + |B|
  {
    hide Walk, PairMargin;
    PairRound(t, A, B);
    if A != [] && B != [] {
      var size := Min(A[0].size, B[0].size);
      PairShrinks(A, B);
      if size <= 0.0 {
        WalkClimbs(t, SkipOne(A), SkipOne(B));
      } else if PairMargin(t, A[0], B[0], size) > 0.0 {
        var rest := Walk(t, [ConsumeOne(A, size), ConsumeOne(B, size)]);
        WalkClimbs(t, ConsumeOne(A, size), ConsumeOne(B, size));
        WalkDraws(t, A, B);
        HeadThenRest(Slice([A[0], B[0]], size), rest, A, B);
      }
    }
  }

  lemma HeadThenRest(head: Slice, rest: seq<Slice>, A: seq<Ask>, B: seq<Ask>)
    requires AnalyzerWalk.PricesAscend(A) && AnalyzerWalk.PricesAscend(B) && A != [] && B != []
    requires head.levels == [A[0], B[0]] && LastDearest(rest)
    requires forall s :: s in [head] + rest ==> DrawnFrom(A, B, s)
    ensures LastDearest([head] + rest)
  {
    var all := [head] + rest;
    var last := all[|all| - 1];
    assert last in all;
    var i :| 0 <= i < |A| && A[i].price == last.levels[0].price;
    var k :| 0 <= k < |B| && B[k].price == last.levels[1].price;
    assert A[0].price <= A[i].price && B[0].price <= B[k].price;
    forall s | s in all
      ensures |s.levels| == 2 == |last.levels|
      ensures s.levels[0].price <= last.levels[0].price && s.levels[1].price <= last.levels[1].price
    {
      if s != head { assert s in rest && last == rest[|rest| - 1]; }
    }
  }

  // ------------------------------------------------------------- the theorems

  lemma {:induction false} NotionalBetween(fs: seq<Level>, top: real)
    requires Positive(fs) && forall i :: 0 <= i < |fs| ==> 0.0 <= fs[i].price <= top
    ensures 0.0 <= Notional(fs) <= top * TotalSize(fs)
  {
    if fs != [] {
      NotionalBetween(fs[1..], top);
      MulMono(0.0, fs[0].price, fs[0].size);
      MulMono(fs[0].price, top, fs[0].size);
      assert top * TotalSize(fs) == top * fs[0].size + top * TotalSize(fs[1..]);
    }
  }

  // One leg repriced at its average, without rounding: the fee does not fall, and the
  // unit cost stays below that of the dearest slice.
  lemma LegRepriced(rate: real, fs: seq<Level>, top: real, n: real, c: real)
    requires 0.0 <= rate <= 1.0 && fs != [] && Under(fs, top) && top <= 1.0
    requires n == TotalSize(fs) && c == Notional(fs)
    ensures n > 0.0 && 0.0 <= c / n <= 1.0
    ensures Quadratic(rate, n, c / n) >= FillFees(rate, fs)
    ensures c + Quadratic(rate, n, c / n) <= Effective(rate, top) * n
  {
    hide Quadratic, FillFees, Effective, TotalSize, Notional;
    AverageFeeIsLarger(rate, fs);
    NotionalBetween(fs, top);
    AverageBetween(n, c, top);
    EffectiveMonotone(rate, c / n, top);
    MulMono(Effective(rate, c / n), Effective(rate, top), n);
    EffectiveTimes(rate, c, n);
  }

  ghost predicate Under(fs: seq<Level>, top: real) {
    Positive(fs) && forall i :: 0 <= i < |fs| ==> 0.0 <= fs[i].price <= top
  }

  lemma AverageBetween(n: real, c: real, top: real)
    requires n > 0.0 && 0.0 <= c <= top * n
    ensures 0.0 <= c / n <= top
  {
    var avg := c / n;
    assert avg * n == c;
    if avg > top { ProductPositive(avg - top, n); }
    if avg < 0.0 { ProductPositive(-avg, n); }
  }

  lemma EffectiveTimes(rate: real, c: real, n: real)
    requires n > 0.0
    ensures c + Quadratic(rate, n, c / n) == Effective(rate, c / n) * n
  {
    var avg := c / n;
    assert avg * n == c;
    assert rate * n * (avg * (1.0 - avg)) == rate * (avg * (1.0 - avg)) * n;
  }

  ghost predicate TwoBooks(A: seq<Ask>, B: seq<Ask>, va: Venue, vb: Venue) { OnVenue(A, va) && OnVenue(B, vb) }

  // What the repricing lemmas need about one leg of a finished walk.
  lemma LegFacts(t: Terms, A: seq<Ask>, B: seq<Ask>, va: Venue, vb: Venue, j: nat)
    requires TwoBooks(A, B, va, vb) && 0 <= t.bps <= 10000 && j < 2 && Walk(t, [A, B]) != []
    ensures var slices := Walk(t, [A, B]);
            && Pairs(slices, va, vb)
            && (forall s :: s in slices ==> |s.levels| == 2)
            && var rate := TakerRate(if j == 0 then va else vb, t.bps);
               var n, c := WalkSize(slices), LegCost(slices, j);
               && n > 0.0 && 0.0 <= c / n <= 1.0
               && Quadratic(rate, n, c / n) >= FillFees(rate, LegFills(slices, j))
               && c + Quadratic(rate, n, c / n) <= Effective(rate, slices[|slices| - 1].levels[j].price) * n
  {
    hide Walk, Quadratic, FillFees, Effective, WalkSize, LegCost, OnVenue, Pairs, TotalSize, Notional;
    hide LastDearest, Under, LegFills;
    var slices := Walk(t, [A, B]);
    BooksAscend(A, va);
    BooksAscend(B, vb);
    WalkIsPairs(t, A, B, va, vb);
    WalkClimbs(t, A, B);
    FillsBelowLast(slices, va, vb, j);
    LegFillsMeasure(slices, j);
    LegRepriced(TakerRate(if j == 0 then va else vb, t.bps), LegFills(slices, j),
                slices[|slices| - 1].levels[j].price, WalkSize(slices), LegCost(slices, j));
  }

  lemma BooksAscend(A: seq<Ask>, va: Venue)
    requires OnVenue(A, va)
    ensures AnalyzerWalk.PricesAscend(A)
  {
  }

  lemma FillsBelowLast(slices: seq<Slice>, va: Venue, vb: Venue, j: nat)
    requires Pairs(slices, va, vb) && LastDearest(slices) && slices != [] && j < 2
    ensures forall s :: s in slices ==> |s.levels| == 2
    ensures var fs, last := LegFills(slices, j), slices[|slices| - 1];
            last in slices && last.levels[j].price <= 1.0 && Under(fs, last.levels[j].price) && fs != []
  {
    assert slices[|slices| - 1] in slices;
  }

  // Before rounding the reported net lies between size times the worst accepted unit
  // margin, which is positive, and the sum of the marginal nets.
  lemma RepriceSandwich(t: Terms, A: seq<Ask>, B: seq<Ask>, va: Venue, vb: Venue)
    requires t.fees == Unrounded && t.payout == 1.0 && 0 <= t.bps <= 10000 && TwoBooks(A, B, va, vb)
    ensures var slices := Walk(t, [A, B]);
            slices != [] ==>
            var last := slices[|slices| - 1];
            && |last.levels| == 2
            && var unit := 1.0 - UnitCost(t.bps, true, last.levels[0]) - UnitCost(t.bps, true, last.levels[1]);
               var q := PairReportOf(t, va, vb, slices);
               && q.Some? && unit > 0.0
               && unit * WalkSize(slices) <= q.value.net <= WalkMargin(t, slices)
  {
    hide Walk, Quadratic, FillFees, Effective, WalkSize, LegCost, WalkMargin, LegFees, LegFills, Pairs;
    var slices := Walk(t, [A, B]);
    if slices == [] { return; }
    var last := slices[|slices| - 1];
    LegFacts(t, A, B, va, vb, 0);
    LegFacts(t, A, B, va, vb, 1);
    assert last in slices;
    MarginByLeg(t, slices, va, vb);
    RawLegFees(t, slices, va, vb, 0);
    RawLegFees(t, slices, va, vb, 1);
    LastUnit(t, slices, va, vb);
    AnalyzerWalk.SplitUnit(0.0, 0.0, UnitCost(t.bps, true, last.levels[0]), UnitCost(t.bps, true, last.levels[1]),
                           WalkSize(slices));
  }

  lemma LastUnit(t: Terms, slices: seq<Slice>, va: Venue, vb: Venue)
    requires t.fees == Unrounded && t.payout == 1.0 && slices != [] && Pairs(slices, va, vb)
    requires forall s :: s in slices ==> Margin(t, s.levels, s.size) > 0.0
    ensures var last := slices[|slices| - 1];
            && |last.levels| == 2 && last.levels[0].venue == va && last.levels[1].venue == vb
            && 1.0 - UnitCost(t.bps, true, last.levels[0]) - UnitCost(t.bps, true, last.levels[1]) > 0.0
  {
    hide UnitCost, LegFee;
    var last := slices[|slices| - 1];
    assert last in slices && last.levels == [last.levels[0], last.levels[1]];
    PairSums(t, last.levels[0], last.levels[1], last.size);
    AnalyzerWalk.UnroundedMargin(t, last.levels[0], last.levels[1], last.size);
    SignOfProduct(1.0 - UnitCost(t.bps, true, last.levels[0]) - UnitCost(t.bps, true, last.levels[1]), last.size);
  }

  // Half a quantum is all a charged fee can lie below the raw curve, and only on Polymarket.
  function Shortfall(v: Venue): real {
    match v
    case Kalshi => 0.0
    case Polymarket => PM_QUANTUM / 2.0
  }

  lemma {:induction false} ChargedLegFees(t: Terms, slices: seq<Slice>, va: Venue, vb: Venue, j: nat)
    requires t.fees == Charged && Pairs(slices, va, vb) && j < 2
    ensures var v := if j == 0 then va else vb;
            var bound := LegFees(t.(fees := Unrounded), slices, j) + |slices| as real * RoundingSlack(v);
            && LegFees(t, slices, j) <= bound
            && (v.Kalshi? && slices != [] ==> LegFees(t, slices, j) < bound)
  {
    hide TakerFee, RawTakerFee, Pairs;
    if slices != [] {
      PairsTail(slices, va, vb);
      FirstVenue(slices, va, vb);
      ChargedLegFees(t, slices[1..], va, vb, j);
      var a := slices[0].levels[j];
      FeeBracket(a.venue, t.bps, a.price, slices[0].size);
      var v := if j == 0 then va else vb;
      assert |slices| as real * RoundingSlack(v) == RoundingSlack(v) + |slices[1..]| as real * RoundingSlack(v);
    }
  }

  // With the fees the code charges, repricing adds at most the rounding: under a cent per
  // Kalshi leg and slice, one quantum per Polymarket leg and slice plus half a quantum.
  lemma RepriceNeverFlatters(t: Terms, A: seq<Ask>, B: seq<Ask>, va: Venue, vb: Venue)
    requires t.fees == Charged && t.payout == 1.0 && 0 <= t.bps <= 10000 && TwoBooks(A, B, va, vb)
    ensures var slices := Walk(t, [A, B]);
            var q := PairReportOf(t, va, vb, slices);
            slices != [] ==>
            var rounding := |slices| as real * (RoundingSlack(va) + RoundingSlack(vb)) + Shortfall(va) + Shortfall(vb);
            && q.Some?
            && q.value.net <= WalkMargin(t, slices) + rounding
            && (va.Kalshi? || vb.Kalshi? ==> q.value.net < WalkMargin(t, slices) + rounding)
  {
    hide Walk, WalkSize, LegCost, WalkMargin, LegFees, Pairs, LegFee, TwoBooks;
    var slices := Walk(t, [A, B]);
    if slices == [] { return; }
    RepricedLeg(t, A, B, va, vb, 0);
    RepricedLeg(t, A, B, va, vb, 1);
    MarginByLeg(t, slices, va, vb);
    assert |slices| as real * (RoundingSlack(va) + RoundingSlack(vb))
        == |slices| as real * RoundingSlack(va) + |slices| as real * RoundingSlack(vb);
  }

  lemma RepricedLeg(t: Terms, A: seq<Ask>, B: seq<Ask>, va: Venue, vb: Venue, j: nat)
    requires t.fees == Charged && 0 <= t.bps <= 10000 && TwoBooks(A, B, va, vb) && j < 2
    requires Walk(t, [A, B]) != []
    ensures var slices := Walk(t, [A, B]);
            var v := if j == 0 then va else vb;
            var n := WalkSize(slices);
            && Pairs(slices, va, vb) && n > 0.0
            && var repriced := LegFee(t, Ask(LegCost(slices, j) / n, n, v), n);
               var paid := LegFees(t, slices, j) - |slices| as real * RoundingSlack(v) - Shortfall(v);
               && repriced >= paid
               && (v.Kalshi? ==> repriced > paid)
  {
    hide Walk, Quadratic, FillFees, Effective, WalkSize, LegCost, LegFees, LegFills, Pairs, TakerFee;
    var slices := Walk(t, [A, B]);
    LegFacts(t, A, B, va, vb, j);
    RawLegFees(t.(fees := Unrounded), slices, va, vb, j);
    ChargedLegFees(t, slices, va, vb, j);
    FeeBracket(if j == 0 then va else vb, t.bps, LegCost(slices, j) / WalkSize(slices), WalkSize(slices));
  }

  // With charged fees the accepted units need not all pay before rounding, and the net is
  // at least what the worst of them makes of the whole size, less one rounding per leg: it
  // is positive as soon as that outweighs the two roundings.
  lemma ChargedNetFloor(t: Terms, A: seq<Ask>, B: seq<Ask>, va: Venue, vb: Venue)
    requires t.fees == Charged && t.payout == 1.0 && 0 <= t.bps <= 10000 && TwoBooks(A, B, va, vb)
    ensures var slices := Walk(t, [A, B]);
            slices != [] ==>
            var last := slices[|slices| - 1];
            && |last.levels| == 2
            && var unit := 1.0 - UnitCost(t.bps, true, last.levels[0]) - UnitCost(t.bps, true, last.levels[1]);
               var q := PairReportOf(t, va, vb, slices);
               var roundings := RoundingSlack(va) + RoundingSlack(vb);
               && q.Some?
               && unit * last.size > -Shortfall(va) - Shortfall(vb)
               && q.value.net >= unit * WalkSize(slices) - roundings
               && (unit * WalkSize(slices) > roundings ==> q.value.net > 0.0)
  {
    hide Walk, WalkSize, LegCost, Pairs, TakerFee, LegFee, Margin, UnitCost, TwoBooks;
    var slices := Walk(t, [A, B]);
    if slices == [] { return; }
    var last, n := slices[|slices| - 1], WalkSize(slices);
    ChargedLegCost(t, A, B, va, vb, 0);
    ChargedLegCost(t, A, B, va, vb, 1);
    LastChargedUnit(t, slices, va, vb);
    AnalyzerWalk.SplitUnit(0.0, 0.0, UnitCost(t.bps, true, last.levels[0]), UnitCost(t.bps, true, last.levels[1]), n);
  }

  // One leg charged once at its average: at most the unit cost of its dearest slice on the
  // whole size, and a rounding.
  lemma ChargedLegCost(t: Terms, A: seq<Ask>, B: seq<Ask>, va: Venue, vb: Venue, j: nat)
    requires t.fees == Charged && 0 <= t.bps <= 10000 && TwoBooks(A, B, va, vb) && j < 2 && Walk(t, [A, B]) != []
    ensures var slices := Walk(t, [A, B]);
            var n, v, last := WalkSize(slices), if j == 0 then va else vb, slices[|slices| - 1];
            && Pairs(slices, va, vb) && n > 0.0 && (forall s :: s in slices ==> |s.levels| == 2)
            && last in slices && last.levels[j].venue == v
            && LegCost(slices, j) + LegFee(t, Ask(LegCost(slices, j) / n, n, v), n)
               <= UnitCost(t.bps, true, last.levels[j]) * n + RoundingSlack(v)
  {
    hide Walk, Quadratic, FillFees, Effective, WalkSize, LegCost, LegFills, TakerFee;
    var slices := Walk(t, [A, B]);
    LegFacts(t, A, B, va, vb, j);
    var last, v := slices[|slices| - 1], if j == 0 then va else vb;
    assert last in slices;
    FeeBracket(v, t.bps, LegCost(slices, j) / WalkSize(slices), WalkSize(slices));
    var n, c := WalkSize(slices), LegCost(slices, j);
    assert UnitCost(t.bps, true, last.levels[j]) == Effective(TakerRate(v, t.bps), last.levels[j].price);
    MulMono(Effective(TakerRate(v, t.bps), last.levels[j].price), UnitCost(t.bps, true, last.levels[j]), n);
    assert c + Quadratic(TakerRate(v, t.bps), n, c / n) <= UnitCost(t.bps, true, last.levels[j]) * n;
    assert LegFee(t, Ask(c / n, n, v), n) == TakerFee(v, t.bps, c / n, n);
    assert TakerFee(v, t.bps, c / n, n) <= Quadratic(TakerRate(v, t.bps), n, c / n) + RoundingSlack(v);
  }

  lemma LastChargedUnit(t: Terms, slices: seq<Slice>, va: Venue, vb: Venue)
    requires t.fees == Charged && t.payout == 1.0 && slices != [] && Pairs(slices, va, vb)
    requires forall s :: s in slices ==> Margin(t, s.levels, s.size) > 0.0
    ensures var last := slices[|slices| - 1];
            && |last.levels| == 2 && last.levels[0].venue == va && last.levels[1].venue == vb
            && var unit := 1.0 - UnitCost(t.bps, true, last.levels[0]) - UnitCost(t.bps, true, last.levels[1]);
               unit * last.size > -Shortfall(va) - Shortfall(vb)
  {
    hide UnitCost, TakerFee, RawTakerFee, LegFee, Margin, Shortfall;
    var last := slices[|slices| - 1];
    assert last in slices && last.levels == [last.levels[0], last.levels[1]];
    PairSums(t, last.levels[0], last.levels[1], last.size);
    AnalyzerWalk.UnroundedMargin(t.(fees := Unrounded), last.levels[0], last.levels[1], last.size);
    MarginsApart(t, last.levels[0], last.levels[1], last.size);
  }

  // Rounding never flatters a pair by more than its shortfalls.
  lemma MarginsApart(t: Terms, a: Ask, b: Ask, size: real)
    requires t.fees == Charged && size > 0.0 && 0.0 <= a.price <= 1.0 && 0.0 <= b.price <= 1.0
    ensures PairMargin(t, a, b, size)
         <= PairMargin(t.(fees := Unrounded), a, b, size) + Shortfall(a.venue) + Shortfall(b.venue)
  {
    hide TakerFee, RawTakerFee, PairMargin, Gross;
    FeeBracket(a.venue, t.bps, a.price, size);
    FeeBracket(b.venue, t.bps, b.price, size);
    MarginIsGross(t, a, b, size);
    MarginIsGross(t.(fees := Unrounded), a, b, size);
  }
}
