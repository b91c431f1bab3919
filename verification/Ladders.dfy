/** Price ladders and the greedy fill that every walk in the repository uses.

    A ladder is a sequence of priced levels. `Fills` is the greedy fill of an
    ascending ladder; `Surplus` prices a ladder at a shadow price and is the
    independent yardstick against which the greedy fill is shown to be cheapest. */
module Ladders {

  datatype Level = Level(price: real, size: real)

  function Min(a: real, b: real): real { if a <= b then a else b }

  function Max(a: real, b: real): real { if a >= b then a else b }

  function Abs(x: real): real { if x >= 0.0 then x else -x }

  // A level offers nothing when its size is not positive: the walks skip it.
  function Avail(l: Level): real { Max(l.size, 0.0) }

  function Depth(ls: seq<Level>): (d: real)
    ensures d >= 0.0
  {
    if ls == [] then 0.0 else Avail(ls[0]) + Depth(ls[1..])
  }

  function TotalSize(ls: seq<Level>): real {
    if ls == [] then 0.0 else ls[0].size + TotalSize(ls[1..])
  }

  function Notional(ls: seq<Level>): real {
    if ls == [] then 0.0 else ls[0].price * ls[0].size + Notional(ls[1..])
  }

  ghost predicate Ascending(ls: seq<Level>) {
    forall i, j :: 0 <= i < j < |ls| ==> ls[i].price <= ls[j].price
  }

  // ---------------------------------------------------------------- sorting

  // Stable insertion: equal prices keep their order, as the source's sort does.
  function Insert(x: Level, ls: seq<Level>): seq<Level> {
    if ls == [] || x.price <= ls[0].price then [x] + ls else [ls[0]] + Insert(x, ls[1..])
  }

  function SortByPrice(ls: seq<Level>): seq<Level> {
    if ls == [] then [] else Insert(ls[0], SortByPrice(ls[1..]))
  }

  lemma {:induction false} InsertPermutes(x: Level, ls: seq<Level>)
    ensures multiset(Insert(x, ls)) == multiset{x} + multiset(ls)
  {
    if ls == [] || x.price <= ls[0].price {
    } else {
      InsertPermutes(x, ls[1..]);
      assert ls == [ls[0]] + ls[1..];
    }
  }

  lemma {:induction false} InsertSorted(x: Level, ls: seq<Level>)
    requires Ascending(ls)
    ensures Ascending(Insert(x, ls))
  {
    if ls == [] || x.price <= ls[0].price {
    } else {
      InsertSorted(x, ls[1..]);
      InsertPermutes(x, ls[1..]);
      ConsAscending(ls[0], Insert(x, ls[1..]), multiset{x} + multiset(ls[1..]));
    }
  }

  lemma ConsAscending(head: Level, rest: seq<Level>, elements: multiset<Level>)
    requires Ascending(rest) && multiset(rest) == elements
    requires forall l :: l in elements ==> head.price <= l.price
    ensures Ascending([head] + rest)
  {
    forall j | 0 <= j < |rest| ensures head.price <= rest[j].price {
      assert rest[j] in multiset(rest);
    }
  }

  lemma {:induction false} InsertMeasures(x: Level, ls: seq<Level>, shadow: real)
    ensures Depth(Insert(x, ls)) == Avail(x) + Depth(ls)
    ensures Surplus(Insert(x, ls), shadow) == Gain(x, shadow) + Surplus(ls, shadow)
  {
    if ls == [] || x.price <= ls[0].price {
      assert ([x] + ls)[1..] == ls;
    } else {
      InsertMeasures(x, ls[1..], shadow);
      assert ([ls[0]] + Insert(x, ls[1..]))[1..] == Insert(x, ls[1..]);
    }
  }

  // Sorting gives an ascending permutation ...
  lemma {:induction false} SortCorrect(ls: seq<Level>)
    ensures Ascending(SortByPrice(ls))
    ensures multiset(SortByPrice(ls)) == multiset(ls)
  {
    if ls != [] {
      SortCorrect(ls[1..]);
      InsertSorted(ls[0], SortByPrice(ls[1..]));
      InsertPermutes(ls[0], SortByPrice(ls[1..]));
      assert ls == [ls[0]] + ls[1..];
    }
  }

  // ... that neither depth nor surplus notices.
  lemma {:induction false} SortMeasures(ls: seq<Level>, shadow: real)
    ensures Depth(SortByPrice(ls)) == Depth(ls)
    ensures Surplus(SortByPrice(ls), shadow) == Surplus(ls, shadow)
  {
    if ls != [] {
      SortMeasures(ls[1..], shadow);
      InsertMeasures(ls[0], SortByPrice(ls[1..]), shadow);
    }
  }

  lemma {:induction false} SortOfAscending(ls: seq<Level>)
    requires Ascending(ls)
    ensures SortByPrice(ls) == ls
  {
    if ls != [] {
      SortOfAscending(ls[1..]);
      assert ls == [ls[0]] + ls[1..];
    }
  }

  // ------------------------------------------------------------ greedy fill

  // What a taker of `target` units receives from an ascending ladder.
  function Fills(ls: seq<Level>, target: real): seq<Level> {
    if ls == [] || target <= 0.0 then []
    else
      var take := Min(ls[0].size, target);
      if take > 0.0 then [Level(ls[0].price, take)] + Fills(ls[1..], target - take)
      else Fills(ls[1..], target)
  }

  function Cost(ls: seq<Level>, target: real): real { Notional(Fills(ls, target)) }

  lemma NotionalCons(l: Level, ls: seq<Level>)
    ensures Notional([l] + ls) == l.price * l.size + Notional(ls)
    ensures TotalSize([l] + ls) == l.size + TotalSize(ls)
    ensures Depth([l] + ls) == Avail(l) + Depth(ls)
  {
    assert ([l] + ls)[1..] == ls;
  }

  // One head level at a time: the recursion the proofs below follow.
  lemma CostStep(ls: seq<Level>, n: real)
    requires ls != [] && n > 0.0
    ensures var t := Min(Avail(ls[0]), n);
            Cost(ls, n) == ls[0].price * t + Cost(ls[1..], n - t)
  {
    var take := Min(ls[0].size, n);
    if take > 0.0 { NotionalCons(Level(ls[0].price, take), Fills(ls[1..], n - take)); }
  }

  lemma CostOfHead(ls: seq<Level>, n: real, x: real)
    requires ls != [] && n > 0.0 && ls[0].size > 0.0 && x == Min(ls[0].size, n)
    ensures Cost(ls, n) == ls[0].price * x + Cost(ls[1..], n - x)
  {
    hide Cost;
    CostStep(ls, n);
  }

  // A fill consumes exactly min(target, depth).
  lemma {:induction false} FillsTotal(ls: seq<Level>, target: real)
    requires target >= 0.0
    ensures TotalSize(Fills(ls, target)) == Min(target, Depth(ls))
    ensures forall f :: f in Fills(ls, target) ==> f.size > 0.0
  {
    if ls != [] && target > 0.0 {
      var take := Min(ls[0].size, target);
      if take > 0.0 {
        FillsTotal(ls[1..], target - take);
        NotionalCons(Level(ls[0].price, take), Fills(ls[1..], target - take));
      } else {
        FillsTotal(ls[1..], target);
      }
    }
  }

  // --------------------------------------------------------- shadow pricing

  // What the ladder would earn if every level cheaper than shadow were resold at shadow.
  function Surplus(ls: seq<Level>, shadow: real): (s: real)
    ensures s >= 0.0
  {
    if ls == [] then 0.0 else Gain(ls[0], shadow) + Surplus(ls[1..], shadow)
  }

  function Gain(l: Level, shadow: real): (g: real)
    ensures g >= 0.0
    ensures shadow <= l.price ==> g == 0.0
    ensures l.price <= shadow ==> g == Avail(l) * (shadow - l.price)
  {
    MulMono(0.0, Max(shadow - l.price, 0.0), Avail(l));
    Avail(l) * Max(shadow - l.price, 0.0)
  }

  lemma MulMono(a: real, b: real, c: real)
    requires a <= b && c >= 0.0
    ensures a * c <= b * c
  {
  }

  lemma {:induction false} SurplusZero(ls: seq<Level>, shadow: real)
    requires forall i :: 0 <= i < |ls| ==> shadow <= ls[i].price
    ensures Surplus(ls, shadow) == 0.0
  {
    if ls != [] { SurplusZero(ls[1..], shadow); }
  }

  // An allocation takes x[i] units from level i.
  ghost predicate Feasible(ls: seq<Level>, x: seq<real>) {
    |x| == |ls| && forall i :: 0 <= i < |x| ==> 0.0 <= x[i] <= Avail(ls[i])
  }

  function Sum(x: seq<real>): real {
    if x == [] then 0.0 else x[0] + Sum(x[1..])
  }

  function AllocationCost(ls: seq<Level>, x: seq<real>): real
    requires |x| == |ls|
  {
    if ls == [] then 0.0 else ls[0].price * x[0] + AllocationCost(ls[1..], x[1..])
  }

  lemma UnitBound(price: real, avail: real, gain: real, x: real, shadow: real)
    requires 0.0 <= x <= avail
    requires shadow <= price ==> gain == 0.0
    requires price <= shadow ==> gain == avail * (shadow - price)
    ensures price * x >= shadow * x - gain
  {
    if price <= shadow {
      MulMono(x, avail, shadow - price);
    } else {
      MulMono(shadow, price, x);
    }
  }

  // Weak duality: no allocation beats the shadow price by more than the surplus.
  lemma {:induction false} WeakDuality(ls: seq<Level>, x: seq<real>, shadow: real)
    requires Feasible(ls, x)
    ensures AllocationCost(ls, x) >= shadow * Sum(x) - Surplus(ls, shadow)
  {
    hide Gain, Avail;
    if ls != [] {
      WeakDuality(ls[1..], x[1..], shadow);
      UnitBound(ls[0].price, Avail(ls[0]), Gain(ls[0], shadow), x[0], shadow);
    }
  }

  // The price of the last level a greedy fill of n touches.
  function MarginalPrice(ls: seq<Level>, n: real): real
    requires 0.0 < n <= Depth(ls)
  {
    if n <= Avail(ls[0]) then ls[0].price else MarginalPrice(ls[1..], n - Avail(ls[0]))
  }

  lemma {:induction false} MarginalPriceListed(ls: seq<Level>, n: real)
    requires 0.0 < n <= Depth(ls)
    ensures exists i :: 0 <= i < |ls| && ls[i].price == MarginalPrice(ls, n)
  {
    if n > Avail(ls[0]) {
      MarginalPriceListed(ls[1..], n - Avail(ls[0]));
      var i :| 0 <= i < |ls[1..]| && ls[1..][i].price == MarginalPrice(ls[1..], n - Avail(ls[0]));
      assert ls[i + 1].price == MarginalPrice(ls, n);
    }
  }

  // Strong duality: the greedy fill attains the bound at its marginal price.
  lemma {:induction false} StrongDuality(ls: seq<Level>, n: real)
    requires Ascending(ls) && 0.0 < n <= Depth(ls)
    ensures var shadow := MarginalPrice(ls, n);
            Cost(ls, n) == shadow * n - Surplus(ls, shadow)
  {
    hide Gain, Cost, Avail;
    CostStep(ls, n);
    if n <= Avail(ls[0]) {
      SurplusZero(ls, ls[0].price);
      FreeNothing(ls[1..]);
    } else {
      StrongDuality(ls[1..], n - Avail(ls[0]));
      MarginalPriceListed(ls[1..], n - Avail(ls[0]));
      DualityStep(ls, n, MarginalPrice(ls, n));
    }
  }

  lemma DualityStep(ls: seq<Level>, n: real, shadow: real)
    requires Ascending(ls) && ls != [] && Avail(ls[0]) < n
    requires exists i :: 0 <= i < |ls[1..]| && ls[1..][i].price == shadow
    requires Cost(ls, n) == ls[0].price * Avail(ls[0]) + Cost(ls[1..], n - Avail(ls[0]))
    requires Cost(ls[1..], n - Avail(ls[0])) == shadow * (n - Avail(ls[0])) - Surplus(ls[1..], shadow)
    ensures Cost(ls, n) == shadow * n - Surplus(ls, shadow)
  {
    hide Gain, Cost, Avail;
    var i :| 0 <= i < |ls[1..]| && ls[1..][i].price == shadow;
    assert ls[0].price <= ls[i + 1].price;
    Rearrange(ls[0].price, Avail(ls[0]), shadow, n - Avail(ls[0]), Gain(ls[0], shadow));
  }

  lemma Rearrange(p: real, avail: real, shadow: real, rest: real, gain: real)
    requires gain == avail * (shadow - p)
    ensures p * avail + shadow * rest == shadow * (avail + rest) - gain
  {
  }

  // The greedy fill as an allocation of its own ladder.
  function Takes(ls: seq<Level>, n: real): seq<real> {
    if ls == [] then []
    else var t := Max(Min(ls[0].size, n), 0.0); [t] + Takes(ls[1..], n - t)
  }

  lemma {:induction false} TakesFeasible(ls: seq<Level>, n: real)
    requires 0.0 <= n <= Depth(ls)
    ensures Feasible(ls, Takes(ls, n))
    ensures Sum(Takes(ls, n)) == n
    ensures AllocationCost(ls, Takes(ls, n)) == Cost(ls, n)
  {
    hide Cost, AllocationCost, Takes;
    TakesUnfold(ls, n);
    if ls != [] {
      var t := Max(Min(ls[0].size, n), 0.0);
      TakesFeasible(ls[1..], n - t);
      AllocationUnfold(ls, t, Takes(ls[1..], n - t));
      CostOfTake(ls, n);
    } else {
      NothingCosts(n);
    }
  }

  lemma TakesUnfold(ls: seq<Level>, n: real)
    ensures ls == [] ==> Takes(ls, n) == []
    ensures ls != [] ==> var t := Max(Min(ls[0].size, n), 0.0); Takes(ls, n) == [t] + Takes(ls[1..], n - t)
  {
  }

  lemma AllocationUnfold(ls: seq<Level>, t: real, rest: seq<real>)
    requires ls != [] && |rest| == |ls| - 1
    ensures AllocationCost(ls, [t] + rest) == ls[0].price * t + AllocationCost(ls[1..], rest)
    ensures Sum([t] + rest) == t + Sum(rest)
  {
    assert ([t] + rest)[1..] == rest;
  }

  lemma CostOfTake(ls: seq<Level>, n: real)
    requires ls != [] && n >= 0.0
    ensures var t := Max(Min(ls[0].size, n), 0.0); Cost(ls, n) == ls[0].price * t + Cost(ls[1..], n - t)
  {
    if n > 0.0 { CostStep(ls, n); } else { CostOfNothing(ls, n); }
  }

  lemma CostOfNothing(ls: seq<Level>, n: real)
    requires n <= 0.0 && ls != []
    ensures Cost(ls, n) == 0.0 && Cost(ls[1..], n) == 0.0
  {
  }

  lemma NothingCosts(n: real)
    ensures Cost([], n) == 0.0 && AllocationCost([], []) == 0.0 && Sum([]) == 0.0
  {
  }

  // Every feasible allocation of n units costs at least the greedy fill of the
  // sorted ladder, whatever order the levels were listed in.
  lemma GreedyIsCheapest(ls: seq<Level>, x: seq<real>)
    requires Feasible(ls, x)
    ensures 0.0 <= Sum(x) <= Depth(ls)
    ensures AllocationCost(ls, x) >= Cost(SortByPrice(ls), Sum(x))
  {
    hide Surplus, Cost, AllocationCost, SortByPrice, Depth;
    SumBounds(ls, x);
    SortCorrect(ls);
    SortMeasures(ls, 0.0);
    if Sum(x) > 0.0 {
      var shadow := MarginalPrice(SortByPrice(ls), Sum(x));
      SortMeasures(ls, shadow);
      WeakDuality(ls, x, shadow);
      StrongDuality(SortByPrice(ls), Sum(x));
    } else {
      AllZeroCost(ls, x);
      FreeNothing(SortByPrice(ls));
    }
  }

  lemma FreeNothing(ls: seq<Level>)
    ensures Cost(ls, 0.0) == 0.0
  {
  }

  lemma {:induction false} SumBounds(ls: seq<Level>, x: seq<real>)
    requires Feasible(ls, x)
    ensures 0.0 <= Sum(x) <= Depth(ls)
  {
    if ls != [] { SumBounds(ls[1..], x[1..]); }
  }

  lemma {:induction false} AllZeroCost(ls: seq<Level>, x: seq<real>)
    requires Feasible(ls, x) && Sum(x) == 0.0
    ensures AllocationCost(ls, x) == 0.0
  {
    if ls != [] {
      SumBounds(ls[1..], x[1..]);
      AllZeroCost(ls[1..], x[1..]);
    }
  }

  // Beyond a fill of a, every further unit costs at least the price paid at the margin,
  // so the average price never falls.
  lemma AverageNeverFalls(ls: seq<Level>, a: real, b: real)
    requires Ascending(ls) && 0.0 < a <= b <= Depth(ls)
    ensures Cost(ls, a) * b <= Cost(ls, b) * a
  {
    hide Surplus, Cost, AllocationCost, Depth;
    var shadow := MarginalPrice(ls, a);
    var s := Surplus(ls, shadow);
    assert Cost(ls, a) == shadow * a - s by { StrongDuality(ls, a); }
    assert Cost(ls, b) >= shadow * b - s by {
      TakesFeasible(ls, b);
      WeakDuality(ls, Takes(ls, b), shadow);
    }
    CrossMultiply(Cost(ls, a), Cost(ls, b), shadow, s, a, b);
  }

  lemma CrossMultiply(ca: real, cb: real, shadow: real, s: real, a: real, b: real)
    requires ca == shadow * a - s && cb >= shadow * b - s
    requires 0.0 < a <= b && s >= 0.0
    ensures ca * b <= cb * a
  {
    MulMono(shadow * b - s, cb, a);
    MulMono(a, b, s);
    assert ca * b == shadow * a * b - s * b;
    assert (shadow * b - s) * a == shadow * a * b - s * a;
  }

  // --------------------------------------------------------------- truncation

  // Cut a list of fills down to `target` units, first fills first.
  function Truncate(fs: seq<Level>, target: real): seq<Level> {
    if fs == [] || target <= 0.0 then []
    else
      var take := Min(fs[0].size, target);
      [Level(fs[0].price, take)] + Truncate(fs[1..], target - take)
  }

  // Filling T and truncating to f is filling f directly.
  lemma {:induction false} TruncateOfFill(ls: seq<Level>, T: real, f: real)
    requires f <= T
    ensures Truncate(Fills(ls, T), f) == Fills(ls, f)
  {
    if ls != [] && f > 0.0 {
      var take := Min(ls[0].size, T);
      if take > 0.0 {
        var fills := Fills(ls, T);
        assert fills[0] == Level(ls[0].price, take) && fills[1..] == Fills(ls[1..], T - take);
        var cut := Min(take, f);
        assert cut == Min(ls[0].size, f);
        if f > take { TruncateOfFill(ls[1..], T - take, f - take); }
      } else {
        TruncateOfFill(ls[1..], T, f);
      }
    }
  }
}
