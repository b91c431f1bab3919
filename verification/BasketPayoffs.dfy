/** What a priced basket earns once its markets resolve.

    A basket holds the same number of contracts on every leg. Its guaranteed payout is
    a claim about worlds, and the lemmas say exactly which worlds honour it. */
module BasketPayoffs {
  import opened Ladders
  import opened VenueFees
  import opened Wrappers
  import opened BasketWalk

  // ---------------------------------------------------------- money that left

  // Every dollar paid: price and charged fee of every leg of every slice.
  function Spent(t: Terms, slices: seq<Slice>): real {
    if slices == [] then 0.0
    else SliceSpend(t, slices[0]) + Spent(t, slices[1..])
  }

  function SliceSpend(t: Terms, s: Slice): real { SumPrices(s.levels) * s.size + SumFees(t, s.levels, s.size) }

  lemma {:induction false} SpentIsPayoutLessMargin(t: Terms, slices: seq<Slice>)
    ensures Spent(t, slices) == t.payout * WalkSize(slices) - WalkMargin(t, slices)
  {
    hide SumPrices, SumFees;
    if slices != [] {
      SpentIsPayoutLessMargin(t, slices[1..]);
      Collect(t.payout, SumPrices(slices[0].levels), slices[0].size, WalkSize(slices[1..]));
    }
  }

  // What holding n of every leg earns when each set of n contracts pays `perSet`.
  function Earned(t: Terms, slices: seq<Slice>, perSet: real): real {
    WalkSize(slices) * perSet - Spent(t, slices)
  }

  // The reported net is honoured exactly when a set pays at least what was guaranteed.
  lemma EarnsReportedIff(t: Terms, lads: seq<seq<Ask>>, perSet: real)
    ensures var slices := Walk(t, lads);
            var r := Report(t, slices, |lads|);
            r.Some? ==> r.value.net > 0.0 && (Earned(t, slices, perSet) >= r.value.net <==> perSet >= t.payout)
  {
    hide Walk, Report, WalkSize, WalkMargin, Spent;
    var slices := Walk(t, lads);
    ReportIffSlice(t, lads);
    SpentIsPayoutLessMargin(t, slices);
    if WalkSize(slices) > 0.0 { CompareScaled(WalkSize(slices), perSet, t.payout); }
  }

  lemma CompareScaled(n: real, a: real, b: real)
    requires n > 0.0
    ensures n * a >= b * n <==> a >= b
  {
    if a >= b { MulMono(b, a, n); }
    else { ProductPositive(n, b - a); }
  }

  // -------------------------------------------------------------- event worlds

  function CountTrue(happened: seq<bool>): nat {
    if happened == [] then 0 else (if happened[0] then 1 else 0) + CountTrue(happened[1..])
  }

  // One YES (resp. NO) contract on every outcome of an event.
  function YesSetPays(happened: seq<bool>): real {
    if happened == [] then 0.0 else (if happened[0] then 1.0 else 0.0) + YesSetPays(happened[1..])
  }

  function NoSetPays(happened: seq<bool>): real {
    if happened == [] then 0.0 else (if happened[0] then 0.0 else 1.0) + NoSetPays(happened[1..])
  }

  lemma {:induction false} SetsPay(happened: seq<bool>)
    ensures YesSetPays(happened) == CountTrue(happened) as real
    ensures NoSetPays(happened) == |happened| as real - CountTrue(happened) as real
  {
    if happened != [] { SetsPay(happened[1..]); }
  }

  datatype DutchKind = DutchYes | DutchNo

  function DutchPayout(kind: DutchKind, legs: nat): real {
    match kind
    case DutchYes => 1.0
    case DutchNo => legs as real - 1.0
  }

  function DutchPays(kind: DutchKind, happened: seq<bool>): real {
    match kind
    case DutchYes => YesSetPays(happened)
    case DutchNo => NoSetPays(happened)
  }

  // The worlds the guarantee is for: exhaustive outcomes for a YES-dutch, mutually
  // exclusive outcomes for a NO-dutch.
  predicate Honoured(kind: DutchKind, happened: seq<bool>) {
    match kind
    case DutchYes => CountTrue(happened) >= 1
    case DutchNo => CountTrue(happened) <= 1
  }

  method PriceDutch(kind: DutchKind, legs: seq<seq<Ask>>, bps: int) returns (r: Option<Basket>)
    ensures var t := Terms(Charged, bps, DutchPayout(kind, |legs|));
            r == Report(t, Walk(t, legs), |legs|)
  {
    match kind
    case DutchYes => r := WalkBasket(legs, bps, 1.0);
    case DutchNo => r := WalkBasket(legs, bps, |legs| as real - 1.0);
  }

  // A dutch earns its reported net, which is positive, in exactly the honoured worlds:
  // at least one outcome for YES, at most one for NO, whatever else happens.
  lemma DutchProfitIff(kind: DutchKind, legs: seq<seq<Ask>>, bps: int, happened: seq<bool>)
    requires |happened| == |legs|
    ensures var t := Terms(Charged, bps, DutchPayout(kind, |legs|));
            var r := Report(t, Walk(t, legs), |legs|);
            r.Some? ==> && r.value.net > 0.0
                        && (Earned(t, Walk(t, legs), DutchPays(kind, happened)) >= r.value.net
                            <==> Honoured(kind, happened))
  {
    hide Walk, Report, Earned, YesSetPays, NoSetPays, CountTrue;
    var t := Terms(Charged, bps, DutchPayout(kind, |legs|));
    EarnsReportedIff(t, legs, DutchPays(kind, happened));
    SetsPay(happened);
  }

  // ---------------------------------------------------------- cumulative ladders

  // One rung of an "at least thr" ladder, with its top of book.
  datatype Rung = Rung(thr: real, ask: real, bid: real, ticker: string)

  datatype LadderArb = LadderArb(buyYes: Rung, buyNo: Rung, gross: real)

  // YES on the lower rung and NO on the higher one, when the underlying lands on v.
  function LadderPays(lo: real, hi: real, v: real): real {
    (if v >= lo then 1.0 else 0.0) + (if v >= hi then 0.0 else 1.0)
  }

  // The pair covers every underlying value exactly when the rungs are in order.
  lemma LadderCoversIff(lo: real, hi: real)
    ensures (forall v :: LadderPays(lo, hi, v) >= 1.0) <==> lo <= hi
  {
    if hi < lo { assert LadderPays(lo, hi, (lo + hi) / 2.0) == 0.0; }
  }

  method PriceLadder(yesLeg: seq<Ask>, noLeg: seq<Ask>, bps: int) returns (r: Option<Basket>)
    ensures var t := Terms(Charged, bps, 1.0); r == Report(t, Walk(t, [yesLeg, noLeg]), 2)
  {
    r := WalkBasket([yesLeg, noLeg], bps, 1.0);
  }

  ghost predicate Violation(lo: Rung, hi: Rung, minGross: real) {
    && lo.thr < hi.thr && lo.ask > 0.0 && hi.bid > 0.0
    && hi.bid - lo.ask > minGross
  }

  // Order of the rung tuples; the ticker never decides anything the screen looks at.
  predicate Before(a: Rung, b: Rung) {
    a.thr < b.thr || (a.thr == b.thr && (a.ask < b.ask || (a.ask == b.ask && a.bid <= b.bid)))
  }

  function InsertRung(x: Rung, rs: seq<Rung>): (s: seq<Rung>)
    ensures multiset(s) == multiset{x} + multiset(rs)
  {
    if rs == [] || Before(x, rs[0]) then [x] + rs
    else
      assert rs == [rs[0]] + rs[1..];
      [rs[0]] + InsertRung(x, rs[1..])
  }

  function SortRungs(rs: seq<Rung>): (s: seq<Rung>)
    ensures multiset(s) == multiset(rs)
  {
    if rs == [] then []
    else
      assert rs == [rs[0]] + rs[1..];
      InsertRung(rs[0], SortRungs(rs[1..]))
  }

  // By threshold, then ask, then bid.
  predicate NotAfter(a: Rung, b: Rung) {
    && a.thr <= b.thr && (a.thr == b.thr ==> a.ask <= b.ask)
    && (a.thr == b.thr && a.ask == b.ask ==> a.bid <= b.bid)
  }

  ghost predicate RungsAscend(rs: seq<Rung>) {
    forall i, j :: 0 <= i < j < |rs| ==> NotAfter(rs[i], rs[j])
  }

  lemma BeforeIs(a: Rung, b: Rung, c: Rung)
    ensures Before(a, b) <==> NotAfter(a, b)
    ensures !Before(a, b) ==> NotAfter(b, a)
    ensures NotAfter(a, b) && NotAfter(b, c) ==> NotAfter(a, c)
  {
  }

  lemma {:induction false} InsertRungSorted(x: Rung, rs: seq<Rung>)
    requires RungsAscend(rs)
    ensures RungsAscend(InsertRung(x, rs))
  {
    hide Before, NotAfter;
    if rs != [] {
      BeforeIs(x, rs[0], rs[0]);
      var tail := rs[1..];
      if Before(x, rs[0]) {
        forall j | 0 < j < |rs| ensures NotAfter(x, rs[j]) { BeforeIs(x, rs[0], rs[j]); }
      } else {
        InsertRungSorted(x, tail);
        var rest := InsertRung(x, tail);
        assert InsertRung(x, rs) == [rs[0]] + rest;
        forall j | 0 <= j < |rest| ensures NotAfter(rs[0], rest[j]) {
          assert rest[j] in multiset(rest);
          if rest[j] != x {
            assert rest[j] in tail;
            var k :| 0 <= k < |tail| && tail[k] == rest[j];
            assert rs[k + 1] == rest[j];
          }
        }
      }
    }
  }

  lemma {:induction false} SortRungsSorted(rs: seq<Rung>)
    ensures RungsAscend(SortRungs(rs))
  {
    if rs != [] {
      SortRungsSorted(rs[1..]);
      InsertRungSorted(rs[0], SortRungs(rs[1..]));
    }
  }

  // Does the kept arbitrage dominate this pair?
  ghost predicate Covered(best: Option<LadderArb>, lo: Rung, hi: Rung, minGross: real) {
    Violation(lo, hi, minGross) ==> best.Some? && best.value.gross >= hi.bid - lo.ask
  }

  ghost predicate Genuine(best: Option<LadderArb>, minGross: real) {
    best.Some? ==>
      (Violation(best.value.buyYes, best.value.buyNo, minGross)
       && best.value.gross == best.value.buyNo.bid - best.value.buyYes.ask)
  }

  // The best so far gives way only to a pair of these rungs that violates by more.
  ghost predicate Replaces(best: Option<LadderArb>, soFar: Option<LadderArb>, rungs: multiset<Rung>) {
    best != soFar ==>
      && best.Some? && best.value.buyYes in rungs && best.value.buyNo in rungs
      && (soFar.Some? ==> best.value.gross > soFar.value.gross)
  }

  // Screens one subject's rungs, given the best violation so far: afterwards the kept
  // one is genuine and no pair of rungs, in any listing order, violates by more.
  method ScreenSubject(rungs: seq<Rung>, minGross: real, soFar: Option<LadderArb>) returns (best: Option<LadderArb>)
    requires Genuine(soFar, minGross)
    ensures Genuine(best, minGross)
    ensures soFar.Some? ==> best.Some? && best.value.gross >= soFar.value.gross
    ensures Replaces(best, soFar, multiset(rungs))
    ensures forall lo, hi :: lo in rungs && hi in rungs ==> Covered(best, lo, hi, minGross)
  {
    hide Screened, Covered, Violation, Genuine, Replaces, SortRungs, RungsAscend, NotAfter;
    best := soFar;
    var rs := SortRungs(rungs);
    SortRungsSorted(rungs);
    ScreenedFirst(soFar, multiset(rs), minGross);
    for i := 0 to |rs|
      invariant Screened(best, soFar, multiset(rs), minGross)
      invariant forall a, b :: 0 <= a < i && a < b < |rs| ==> Covered(best, rs[a], rs[b], minGross)
    {
      for j := i + 1 to |rs|
        invariant Screened(best, soFar, multiset(rs), minGross)
        invariant forall a, b :: 0 <= a < i && a < b < |rs| ==> Covered(best, rs[a], rs[b], minGross)
        invariant forall b :: i < b < j ==> Covered(best, rs[i], rs[b], minGross)
      {
        var lo, hi := rs[i], rs[j];
        assert lo in multiset(rs) && hi in multiset(rs);
        ScreenedPair(best, soFar, multiset(rs), lo, hi, minGross);
        if hi.thr <= lo.thr || lo.ask <= 0.0 || hi.bid <= 0.0 { continue; }
        var viol := hi.bid - lo.ask;
        if viol > minGross && (best.None? || viol > best.value.gross) {
          best := Some(LadderArb(lo, hi, viol));
        }
      }
    }
    ScreenedMeans(best, soFar, multiset(rs), minGross);
    AnyOrder(rungs, rs, best, minGross);
  }

  ghost predicate Screened(best: Option<LadderArb>, soFar: Option<LadderArb>, rungs: multiset<Rung>, minGross: real) {
    && Genuine(best, minGross) && Replaces(best, soFar, rungs)
    && (soFar.Some? ==> best.Some? && best.value.gross >= soFar.value.gross)
  }

  lemma ScreenedFirst(soFar: Option<LadderArb>, rungs: multiset<Rung>, minGross: real)
    requires Genuine(soFar, minGross)
    ensures Screened(soFar, soFar, rungs, minGross)
  {
  }

  lemma ScreenedMeans(best: Option<LadderArb>, soFar: Option<LadderArb>, rungs: multiset<Rung>, minGross: real)
    requires Screened(best, soFar, rungs, minGross)
    ensures Genuine(best, minGross) && Replaces(best, soFar, rungs)
    ensures soFar.Some? ==> best.Some? && best.value.gross >= soFar.value.gross
  {
  }

  // A pair that is no violation, or none above the best, is covered as it is; a larger one
  // takes over and covers all that was covered.
  lemma ScreenedPair(best: Option<LadderArb>, soFar: Option<LadderArb>, rungs: multiset<Rung>, lo: Rung, hi: Rung,
                     minGross: real)
    requires Screened(best, soFar, rungs, minGross) && lo in rungs && hi in rungs
    ensures var viol := hi.bid - lo.ask;
            if !(hi.thr <= lo.thr || lo.ask <= 0.0 || hi.bid <= 0.0) && viol > minGross
               && (best.None? || viol > best.value.gross)
            then
              var more := Some(LadderArb(lo, hi, viol));
              && Screened(more, soFar, rungs, minGross) && Covered(more, lo, hi, minGross)
              && forall a, b :: Covered(best, a, b, minGross) ==> Covered(more, a, b, minGross)
            else Covered(best, lo, hi, minGross)
  {
  }

  lemma AnyOrder(rungs: seq<Rung>, rs: seq<Rung>, best: Option<LadderArb>, minGross: real)
    requires multiset(rs) == multiset(rungs) && RungsAscend(rs)
    requires forall a, b :: 0 <= a < b < |rs| ==> Covered(best, rs[a], rs[b], minGross)
    ensures forall lo, hi :: lo in rungs && hi in rungs ==> Covered(best, lo, hi, minGross)
  {
    forall lo, hi | lo in rungs && hi in rungs && Violation(lo, hi, minGross)
      ensures Covered(best, lo, hi, minGross)
    {
      assert lo in multiset(rs) && hi in multiset(rs);
      var a :| 0 <= a < |rs| && rs[a] == lo;
      var b :| 0 <= b < |rs| && rs[b] == hi;
    }
  }

  // A screened pair, once priced, earns its reported net at every underlying value.
  lemma LadderProfit(best: LadderArb, minGross: real, yesLeg: seq<Ask>, noLeg: seq<Ask>, bps: int, v: real)
    requires Genuine(Some(best), minGross)
    ensures var t := Terms(Charged, bps, 1.0);
            var r := Report(t, Walk(t, [yesLeg, noLeg]), 2);
            var earned := Earned(t, Walk(t, [yesLeg, noLeg]), LadderPays(best.buyYes.thr, best.buyNo.thr, v));
            r.Some? ==> earned >= r.value.net > 0.0
  {
    hide Walk, Report, Earned;
    LadderCoversIff(best.buyYes.thr, best.buyNo.thr);
    EarnsReportedIff(Terms(Charged, bps, 1.0), [yesLeg, noLeg], LadderPays(best.buyYes.thr, best.buyNo.thr, v));
  }
}
