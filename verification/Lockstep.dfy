/** The pairing both complementary walks go through, before anyone looks at fees, and the
    exact condition under which they record the same trades: the probe stops at the first
    slice that does not pay, the analyzer skips it. */
module Lockstep {
  import opened Ladders
  import opened VenueFees
  import opened BasketWalk
  import opened BasketOptimality
  import opened ComplementaryWalk
  import opened AnalyzerWalk

  // Level against level below a combined dollar, the smaller one finished each time.
  function Pairing(A: seq<Ask>, B: seq<Ask>): (slices: seq<Slice>)
    ensures forall s :: s in slices ==> |s.levels| == 2
    decreases |A| + |B|
  {
    if A == [] || B == [] || A[0].price + B[0].price >= 1.0 then []
    else
      var volume := Min(A[0].size, B[0].size);
      if volume < 0.0 then
        if A[0].size <= B[0].size then Pairing(A[1..], B) else Pairing(A, B[1..])
      else
        var rest := Pairing(Deplete(A, volume), Deplete(B, volume));
        if volume > 0.0 then [Slice([A[0], B[0]], volume)] + rest else rest
  }

  predicate Pays(t: Terms, s: Slice)
    requires |s.levels| == 2
  {
    PairMargin(t, s.levels[0], s.levels[1], s.size) > 0.0
  }

  // The slices up to the first that does not pay.
  function PayingPrefix(t: Terms, slices: seq<Slice>): (r: seq<Slice>)
    requires forall s :: s in slices ==> |s.levels| == 2
    ensures forall s :: s in r ==> |s.levels| == 2
  {
    if slices == [] || !Pays(t, slices[0]) then [] else [slices[0]] + PayingPrefix(t, slices[1..])
  }

  // The slices that pay, wherever they stand.
  function PayingOnes(t: Terms, slices: seq<Slice>): (r: seq<Slice>)
    requires forall s :: s in slices ==> |s.levels| == 2
    ensures forall s :: s in r ==> |s.levels| == 2
    ensures |r| <= |slices|
  {
    if slices == [] then []
    else if Pays(t, slices[0]) then [slices[0]] + PayingOnes(t, slices[1..])
    else PayingOnes(t, slices[1..])
  }

  lemma PairingRound(A: seq<Ask>, B: seq<Ask>)
    ensures A == [] || B == [] || A[0].price + B[0].price >= 1.0 ==> Pairing(A, B) == []
    ensures A != [] && B != [] && A[0].price + B[0].price < 1.0 ==>
      var volume := Min(A[0].size, B[0].size);
      Pairing(A, B) ==
        if volume < 0.0 then (if A[0].size <= B[0].size then Pairing(A[1..], B) else Pairing(A, B[1..]))
        else if volume > 0.0 then [Slice([A[0], B[0]], volume)] + Pairing(Deplete(A, volume), Deplete(B, volume))
        else Pairing(Deplete(A, volume), Deplete(B, volume))
  {
  }

  lemma PrefixCons(t: Terms, s: Slice, rest: seq<Slice>)
    requires |s.levels| == 2 && forall x :: x in rest ==> |x.levels| == 2
    ensures forall x :: x in [s] + rest ==> |x.levels| == 2
    ensures PayingPrefix(t, [s] + rest) == if Pays(t, s) then [s] + PayingPrefix(t, rest) else []
    ensures PayingOnes(t, [s] + rest) == if Pays(t, s) then [s] + PayingOnes(t, rest) else PayingOnes(t, rest)
  {
    hide Pays;
    assert ([s] + rest)[1..] == rest;
  }

  // The probe takes the paying prefix of the pairing.
  lemma {:induction false} WalkIsPrefix(t: Terms, lot: real, A: seq<Ask>, B: seq<Ask>)
    requires t.payout == 1.0 && t.bps <= 10000 && TameLeg(lot, A) && TameLeg(lot, B)
    ensures Walk(t, [A, B]) == PayingPrefix(t, Pairing(A, B))
    decreases |A| + |B|
  {
    hide Walk, Pairing, PayingPrefix, PayingOnes, TameLeg, UnitCost, Deplete, ConsumeOne, PairMargin, SingleVenue,
      LegOnLots;
    PairRound(t, A, B);
    PairingRound(A, B);
    NothingPays(t);
    if A != [] && B != [] {
      TameIsSingle(lot, A);
      TameIsSingle(lot, B);
      if A[0].price + B[0].price >= 1.0 {
        DollarStopsProbe(t, A, B);
      } else {
        PrefixStep(t, lot, A, B);
      }
    }
  }

  lemma NothingPays(t: Terms)
    ensures PayingPrefix(t, []) == [] && PayingOnes(t, []) == []
  {
  }

  lemma PrefixStep(t: Terms, lot: real, A: seq<Ask>, B: seq<Ask>)
    requires t.payout == 1.0 && t.bps <= 10000 && TameLeg(lot, A) && TameLeg(lot, B)
    requires A != [] && B != [] && A[0].price + B[0].price < 1.0
    ensures Walk(t, [A, B]) == PayingPrefix(t, Pairing(A, B))
    decreases |A| + |B|, 0
  {
    hide Walk, Pairing, PayingPrefix, PayingOnes, TameLeg, UnitCost, Deplete, ConsumeOne, PairMargin, SingleVenue,
      LegOnLots;
    var volume := Min(A[0].size, B[0].size);
    PairRound(t, A, B);
    PairingRound(A, B);
    TameIsSingle(lot, A);
    TameIsSingle(lot, B);
    DepleteKeeps(lot, t.bps, A, B);
    if volume < 0.0 {
      if A[0].size <= B[0].size {
        TailKeeps(lot, t.bps, A);
        DeadHeadA(t, A, B);
        WalkIsPrefix(t, lot, A[1..], B);
      } else {
        TailKeeps(lot, t.bps, B);
        DeadHeadB(t, A, B);
        WalkIsPrefix(t, lot, A, B[1..]);
      }
    } else if volume == 0.0 {
      DepleteIsSkip(A);
      DepleteIsSkip(B);
      WalkIsPrefix(t, lot, SkipOne(A), SkipOne(B));
    } else {
      ConsumeIsDeplete(lot, A, volume);
      ConsumeIsDeplete(lot, B, volume);
      WalkIsPrefix(t, lot, Deplete(A, volume), Deplete(B, volume));
      PrefixCons(t, Slice([A[0], B[0]], volume), Pairing(Deplete(A, volume), Deplete(B, volume)));
    }
  }

  // The analyzer records the paying slices of the pairing.
  lemma {:induction false} TradesAreOnes(s: Settings, t: Terms, lot: real, A: seq<Ask>, B: seq<Ask>, room: nat)
    requires Matching(s, t) && TameLeg(lot, A) && TameLeg(lot, B) && room >= |A| + |B|
    ensures Trades(s, A, B, room) == AsTrades(t, PayingOnes(t, Pairing(A, B)))
    decreases |A| + |B|
  {
    hide Trades, TradeAt, Pairing, PayingPrefix, PayingOnes, TameLeg, UnitCost, Deplete, PairMargin;
    hide Matching, Aligned, SingleVenue, LegOnLots;
    TradesRound(s, A, B, room);
    PairingRound(A, B);
    NothingPays(t);
    if A != [] && B != [] && A[0].price + B[0].price < 1.0 {
      var volume := Min(A[0].size, B[0].size);
      MatchingPayout(s, t);
      TameIsSingle(lot, A);
      TameIsSingle(lot, B);
      DepleteKeeps(lot, t.bps, A, B);
      if volume < 0.0 {
        if A[0].size <= B[0].size {
          TailKeeps(lot, t.bps, A);
          TradesAreOnes(s, t, lot, A[1..], B, room);
        } else {
          TailKeeps(lot, t.bps, B);
          TradesAreOnes(s, t, lot, A, B[1..], room);
        }
      } else {
        var slice, rest := Slice([A[0], B[0]], volume), Pairing(Deplete(A, volume), Deplete(B, volume));
        TradePaysIff(s, t, A[0], B[0]);
        TradesAreOnes(s, t, lot, Deplete(A, volume), Deplete(B, volume),
                      if TradeAt(s, A[0], B[0]).net > 0.0 then room - 1 else room);
        PrefixCons(t, slice, rest);
        if volume > 0.0 && Pays(t, slice) { AsTradesCons(t, slice, PayingOnes(t, rest)); }
      }
    }
  }

  // One round of both: the analyzer records a slice exactly when it pays, as the same trade.
  lemma TradePaysIff(s: Settings, t: Terms, a: Ask, b: Ask)
    requires Matching(s, t) && a.price >= 0.0 && b.price >= 0.0 && a.price + b.price < 1.0 && Min(a.size, b.size) >= 0.0
    ensures var slice := Slice([a, b], Min(a.size, b.size));
            && (TradeAt(s, a, b).net > 0.0 <==> slice.size > 0.0 && Pays(t, slice))
            && (slice.size > 0.0 ==> TradeAt(s, a, b) == AsTrade(t, slice))
  {
    hide TradeAt, PairMargin, Matching;
    if Min(a.size, b.size) > 0.0 { TradeIsSlice(s, t, a, b); } else { NothingTraded(s, a, b); }
  }

  // A slice that pays behind one that does not.
  ghost predicate PaysBehind(t: Terms, slices: seq<Slice>)
    requires forall s :: s in slices ==> |s.levels| == 2
  {
    exists i, j :: 0 <= i < j < |slices| && !Pays(t, slices[i]) && Pays(t, slices[j])
  }

  ghost predicate SomePays(t: Terms, slices: seq<Slice>)
    requires forall s :: s in slices ==> |s.levels| == 2
  {
    exists j :: 0 <= j < |slices| && Pays(t, slices[j])
  }

  lemma {:induction false} OnesExist(t: Terms, slices: seq<Slice>)
    requires forall s :: s in slices ==> |s.levels| == 2
    ensures PayingOnes(t, slices) != [] <==> SomePays(t, slices)
  {
    hide Pays;
    if slices != [] {
      var rest := slices[1..];
      OnesExist(t, rest);
      if SomePays(t, rest) {
        var j :| 0 <= j < |rest| && Pays(t, rest[j]);
        assert slices[j + 1] == rest[j];
      }
      if SomePays(t, slices) && !Pays(t, slices[0]) {
        var j :| 0 <= j < |slices| && Pays(t, slices[j]);
        assert rest[j - 1] == slices[j];
      }
    }
  }

  lemma PaysBehindCons(t: Terms, slices: seq<Slice>)
    requires slices != [] && forall s :: s in slices ==> |s.levels| == 2
    ensures PaysBehind(t, slices) <==>
      PaysBehind(t, slices[1..]) || (!Pays(t, slices[0]) && SomePays(t, slices[1..]))
    ensures PaysBehind(t, slices[1..]) ==> SomePays(t, slices[1..])
  {
    hide Pays;
    var rest := slices[1..];
    if PaysBehind(t, slices) {
      var i, j :| 0 <= i < j < |slices| && !Pays(t, slices[i]) && Pays(t, slices[j]);
      assert rest[j - 1] == slices[j];
      if i > 0 { assert rest[i - 1] == slices[i]; }
    }
    if PaysBehind(t, rest) {
      var i, j :| 0 <= i < j < |rest| && !Pays(t, rest[i]) && Pays(t, rest[j]);
      assert slices[i + 1] == rest[i] && slices[j + 1] == rest[j];
    }
    if SomePays(t, rest) {
      var j :| 0 <= j < |rest| && Pays(t, rest[j]);
      assert slices[j + 1] == rest[j];
    }
  }

  lemma {:induction false} PrefixAgainstOnes(t: Terms, slices: seq<Slice>)
    requires forall s :: s in slices ==> |s.levels| == 2
    ensures |PayingPrefix(t, slices)| <= |PayingOnes(t, slices)|
    ensures |PayingPrefix(t, slices)| == |PayingOnes(t, slices)| <==> !PaysBehind(t, slices)
    ensures !PaysBehind(t, slices) ==> PayingPrefix(t, slices) == PayingOnes(t, slices)
  {
    hide Pays, PaysBehind, SomePays;
    if slices == [] {
      NoneBehind(t);
    } else {
      PrefixAgainstOnes(t, slices[1..]);
      PaysBehindCons(t, slices);
      OnesExist(t, slices[1..]);
    }
  }

  lemma NoneBehind(t: Terms)
    ensures !PaysBehind(t, [])
  {
  }

  // Under any fees, charged or not: the two walks record the same trades if and only if no
  // slice of the pairing pays behind one that does not.
  lemma WalksRecordAlikeIff(s: Settings, t: Terms, lot: real, A: seq<Ask>, B: seq<Ask>, room: nat)
    requires Matching(s, t) && TameLeg(lot, A) && TameLeg(lot, B) && room >= |A| + |B|
    ensures AsTrades(t, Walk(t, [A, B])) == Trades(s, A, B, room) <==> !PaysBehind(t, Pairing(A, B))
  {
    hide Walk, Trades, Pairing, PayingPrefix, PayingOnes, PaysBehind, TameLeg, AsTrade;
    MatchingPayout(s, t);
    WalkIsPrefix(t, lot, A, B);
    TradesAreOnes(s, t, lot, A, B, room);
    PrefixAgainstOnes(t, Pairing(A, B));
  }

  // For the two methods, on the same two books of any two venues.
  lemma ResultsAlikeIff(s: Settings, t: Terms, lot: real, a: seq<Level>, b: seq<Level>,
                        va: Venue, vb: Venue, maxTrades: nat)
    requires Aligned(s, t) && FallbackIdle(t, va, s.fallbackA) && FallbackIdle(t, vb, s.fallbackB)
    requires Book(lot, a) && Book(lot, b) && maxTrades >= |a| + |b|
    ensures var probe := AsTrades(t, Walk(t, [Tag(a, va), Tag(b, vb)]));
            var analyzer := Trades(s, Tag(SortByPrice(a), va), Tag(SortByPrice(b), vb), maxTrades);
            probe == analyzer <==> !PaysBehind(t, Pairing(Tag(a, va), Tag(b, vb)))
  {
    hide Walk, Trades, AsTrades, EstimateFee, Pairing, PaysBehind;
    var idle := if t.bps > 0 then s else s.(fallbackA := 0.0, fallbackB := 0.0);
    SortOfAscending(a);
    SortOfAscending(b);
    assert TameLeg(lot, Tag(a, va)) && TameLeg(lot, Tag(b, vb));
    WalksRecordAlikeIff(idle, t, lot, Tag(a, va), Tag(b, vb), maxTrades);
    if t.bps <= 0 { IdleTrades(s, t, va, vb, Tag(a, va), Tag(b, vb), maxTrades); }
  }
}
