/** The risk model's order-book walk: average execution price against the best price. */
module Slippage {
  import opened Ladders
  import opened VenueFees
  import opened MockExecution

  const NO_DEPTH_SLIPPAGE := 0.05

  // Dividing by a zero best price raises in the source.
  datatype Estimate = Estimate(slippage: real, depth: real) | DivisionByZero

  // Cost and depth of the walk; sizes are taken as they come, without a sign check.
  function Walked(levels: seq<Level>, left: real): (real, real) {
    if levels == [] || left <= 0.0 then (0.0, 0.0)
    else
      var fill := Min(left, levels[0].size);
      var rest := Walked(levels[1..], left - fill);
      (Pay(fill, levels[0].price) + rest.0, fill + rest.1)
  }

  function Pay(size: real, price: real): real { size * price }

  function EstimateOf(levels: seq<Level>, size: real): Estimate {
    if levels == [] then Estimate(NO_DEPTH_SLIPPAGE, 0.0)
    else
      var (cost, depth) := Walked(levels, size);
      var best := levels[0].price;
      if depth <= 0.0 then Estimate(NO_DEPTH_SLIPPAGE, depth)
      else if best == 0.0 then DivisionByZero
      else Estimate(Abs(cost / depth - best) / best, depth)
  }

  method WalkOrderbook(levels: seq<Level>, tradeSize: real) returns (r: Estimate)
    ensures r == EstimateOf(levels, tradeSize)
  {
    if levels == [] { return Estimate(NO_DEPTH_SLIPPAGE, 0.0); }
    var remaining, totalCost, depth := tradeSize, 0.0, 0.0;
    var best := levels[0].price;
    assert levels[0..] == levels;
    for i := 0 to |levels|
      invariant Walked(levels, tradeSize)
             == (totalCost + Walked(levels[i..], remaining).0, depth + Walked(levels[i..], remaining).1)
    {
      if remaining <= 0.0 { break; }
      var fill := Min(remaining, levels[i].size);
      assert levels[i..][0] == levels[i] && levels[i..][1..] == levels[i + 1..];
      totalCost := totalCost + Pay(fill, levels[i].price);
      depth := depth + fill;
      remaining := remaining - fill;
    }
    if depth > 0.0 {
      if best == 0.0 { return DivisionByZero; }
      return Estimate(Abs(totalCost / depth - best) / best, depth);
    }
    r := Estimate(NO_DEPTH_SLIPPAGE, depth);
  }

  ghost predicate Sized(levels: seq<Level>) { forall i :: 0 <= i < |levels| ==> levels[i].size >= 0.0 }

  // On non-negative sizes the walk is the greedy fill: it consumes min(size, depth).
  lemma {:induction false} WalkedIsFill(levels: seq<Level>, n: real)
    requires Sized(levels) && n >= 0.0
    ensures Walked(levels, n) == (Cost(levels, n), Min(n, Depth(levels)))
  {
    hide Cost;
    if levels == [] || n <= 0.0 {
      FillsNothing(levels, n);
    } else {
      var fill := Min(n, levels[0].size);
      WalkedIsFill(levels[1..], n - fill);
      if levels[0].size > 0.0 { CostOfHead(levels, n, fill); } else { EmptyHead(levels, n); }
      assert Pay(fill, levels[0].price) == levels[0].price * fill;
    }
  }

  lemma EmptyHead(levels: seq<Level>, n: real)
    requires levels != [] && levels[0].size == 0.0 && n > 0.0
    ensures Cost(levels, n) == Cost(levels[1..], n)
  {
  }

  lemma FillsNothing(levels: seq<Level>, n: real)
    requires levels == [] || n <= 0.0
    ensures Cost(levels, n) == 0.0
  {
  }

  // Past the whole depth a larger trade changes nothing.
  lemma {:induction false} CostBeyondDepth(levels: seq<Level>, n: real)
    requires Sized(levels) && n >= Depth(levels)
    ensures Cost(levels, n) == Cost(levels, Depth(levels))
  {
    hide Cost;
    if n == Depth(levels) {
    } else if levels == [] {
      FillsNothing(levels, n);
      FillsNothing(levels, 0.0);
    } else {
      var head, total := levels[0].size, Depth(levels);
      assert total == head + Depth(levels[1..]);
      CostBeyondDepth(levels[1..], n - head);
      if head > 0.0 {
        CostOfHead(levels, n, head);
        CostOfHead(levels, total, head);
      } else {
        EmptyHead(levels, n);
        if total > 0.0 { EmptyHead(levels, total); } else { BothNothing(levels); }
      }
    }
  }

  lemma BothNothing(levels: seq<Level>)
    requires levels != []
    ensures Cost(levels, 0.0) == Cost(levels[1..], 0.0) == 0.0
  {
    FillsNothing(levels, 0.0);
    FillsNothing(levels[1..], 0.0);
  }

  // The walk reduced to its effective size m = min(n, depth).
  lemma EstimateClosed(levels: seq<Level>, n: real)
    requires Sized(levels) && n > 0.0 && levels != [] && levels[0].price > 0.0
    ensures var m := Min(n, Depth(levels));
            EstimateOf(levels, n) ==
              if m <= 0.0 then Estimate(NO_DEPTH_SLIPPAGE, m)
              else Estimate(Abs(Cost(levels, m) / m - levels[0].price) / levels[0].price, m)
  {
    hide Cost;
    WalkedIsFill(levels, n);
    if n >= Depth(levels) { CostBeyondDepth(levels, n); }
  }

  lemma QuotientOrder(ca: real, cb: real, a: real, b: real)
    requires 0.0 < a && 0.0 < b && ca * b <= cb * a
    ensures ca / a <= cb / b
  {
    var x, y := ca / a, cb / b;
    assert x * a == ca && y * b == cb;
    assert (x - y) * (a * b) == ca * b - cb * a;
    ProductPositive(a, b);
    SignOfProduct(x - y, a * b);
  }

  // A quotient is the one number that multiplies back.
  lemma QuotientIs(c: real, n: real, q: real)
    requires n > 0.0 && q * n == c
    ensures c / n == q
  {
    var r := c / n;
    assert (r - q) * n == 0.0;
    SignOfProduct(r - q, n);
    SignOfProduct(q - r, n);
  }

  // A larger trade never averages a better price than a smaller one.
  lemma AverageOrder(levels: seq<Level>, a: real, b: real)
    requires Ascending(levels) && 0.0 < a <= b <= Depth(levels)
    ensures levels[0].price <= Cost(levels, a) / a <= Cost(levels, b) / b
  {
    hide Cost, Depth;
    AverageNeverFalls(levels, a, b);
    QuotientOrder(Cost(levels, a), Cost(levels, b), a, b);
    HeadBelowAverage(levels, a);
  }

  lemma HeadBelowAverage(levels: seq<Level>, a: real)
    requires Ascending(levels) && 0.0 < a <= Depth(levels)
    ensures levels != [] && levels[0].price <= Cost(levels, a) / a
  {
    hide Cost, Surplus, AllocationCost, Takes, Sum, Feasible;
    NoDepth();
    hide Depth;
    TakesFeasible(levels, a);
    WeakDuality(levels, Takes(levels, a), levels[0].price);
    SurplusZero(levels, levels[0].price);
    BelowQuotient(levels[0].price, Cost(levels, a), a);
  }

  lemma NoDepth()
    ensures Depth([]) == 0.0
  {
  }

  lemma BelowQuotient(p: real, c: real, n: real)
    requires n > 0.0 && p * n <= c
    ensures p <= c / n
  {
    var q := c / n;
    assert q * n == c;
    SignOfProduct(p - q, n);
  }

  lemma ScaleDown(x: real, y: real, best: real)
    requires 0.0 <= x <= y && best > 0.0
    ensures x / best <= y / best
  {
    MulMono(x, y, best);
    QuotientOrder(x, y, best, best);
  }

  ghost predicate Descending(levels: seq<Level>) {
    forall i, j :: 0 <= i < j < |levels| ==> levels[i].price >= levels[j].price
  }

  // The gap of the average from the best price, as a share of it; five percent when nothing
  // is there to take, and a division by zero on a free best level.
  lemma EstimateIsGap(levels: seq<Level>, size: real)
    requires Sized(levels) && size >= 0.0
    ensures var r, depth := EstimateOf(levels, size), Min(size, Depth(levels));
            && (depth <= 0.0 ==> r == Estimate(0.05, depth))
            && (depth > 0.0 ==> levels != [] && (r.DivisionByZero? <==> levels[0].price == 0.0))
            && (depth > 0.0 && levels[0].price > 0.0 ==>
                  var gap := Cost(levels, size) - levels[0].price * depth;
                  r.depth == depth && r.slippage * levels[0].price * depth == if gap >= 0.0 then gap else -gap)
  {
    hide Walked, Cost;
    WalkedIsFill(levels, size);
    if levels != [] && Min(size, Depth(levels)) > 0.0 && levels[0].price > 0.0 {
      GapShare(Cost(levels, size), Min(size, Depth(levels)), levels[0].price);
    }
  }

  lemma GapShare(cost: real, depth: real, best: real)
    requires depth > 0.0 && best > 0.0
    ensures var gap := cost - best * depth;
            Abs(cost / depth - best) / best * best * depth == if gap >= 0.0 then gap else -gap
  {
    var avg := cost / depth;
    assert avg * depth == cost;
    assert Abs(avg - best) / best * best == Abs(avg - best);
    assert (avg - best) * depth == cost - best * depth;
    SignOfProduct(avg - best, depth);
    SignOfProduct(best - avg, depth);
  }

  // On a sorted book, asks or bids, slippage never falls as a positive trade grows, and
  // the depth consumed is the smaller of trade and book.
  lemma SlippageMonotone(levels: seq<Level>, a: real, b: real)
    requires Sized(levels) && levels != [] && levels[0].price > 0.0
    requires Ascending(levels) || Descending(levels)
    requires 0.0 < a <= b
    ensures var ea, eb := EstimateOf(levels, a), EstimateOf(levels, b);
            && ea.Estimate? && eb.Estimate?
            && ea.slippage <= eb.slippage
            && ea.depth == Min(a, Depth(levels)) && eb.depth == Min(b, Depth(levels))
  {
    hide Cost, EstimateOf, Depth;
    EstimateClosed(levels, a);
    EstimateClosed(levels, b);
    var ma, mb := Min(a, Depth(levels)), Min(b, Depth(levels));
    if ma > 0.0 {
      GapsGrow(levels, ma, mb);
      ScaleDown(Abs(Cost(levels, ma) / ma - levels[0].price), Abs(Cost(levels, mb) / mb - levels[0].price),
                levels[0].price);
    }
  }

  lemma GapsGrow(levels: seq<Level>, a: real, b: real)
    requires Ascending(levels) || Descending(levels)
    requires 0.0 < a <= b <= Depth(levels) && levels != []
    ensures Abs(Cost(levels, a) / a - levels[0].price) <= Abs(Cost(levels, b) / b - levels[0].price)
  {
    hide Cost, Depth;
    if Ascending(levels) {
      AverageOrder(levels, a, b);
    } else {
      var mirrored := Negate(levels);
      NegateMeasures(levels);
      AverageOrder(mirrored, a, b);
      MirroredCost(levels, a);
      MirroredCost(levels, b);
    }
  }

  lemma MirroredCost(levels: seq<Level>, n: real)
    requires n > 0.0
    ensures Cost(Negate(levels), n) / n == -(Cost(levels, n) / n)
  {
    hide Fills, Notional;
    FillsOfNegated(levels, n);
    NegateMeasures(Fills(levels, n));
    QuotientIs(-Cost(levels, n), n, -(Cost(levels, n) / n));
  }
}
