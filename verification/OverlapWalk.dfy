/** The analyzer's same-outcome walk: buy asks on one venue, sell into bids on the other.

    A partly used level keeps its full size in the list: the walk reduces a copy and never
    writes it back, unlike the complementary walk beside it. So a level can be sold again,
    and the main result says exactly on which pairs of books that happens. */
module OverlapWalk {
  import opened Ladders
  import opened VenueFees
  import opened BasketWalk
  import opened ComplementaryWalk
  import opened MockExecution
  import opened AnalyzerWalk

  // Both prices include slippage and this trade's fee.
  datatype Crossing = Crossing(buyPrice: real, sellPrice: real, volume: real, gross: real, net: real,
                               slippage: real, buyFee: real, sellFee: real)

  // The quick check, with the flat fallback rates as multipliers.
  predicate Crosses(s: Settings, a: Ask, b: Ask) {
    b.price * (1.0 - s.fallbackB) - a.price * (1.0 + s.fallbackA) > 0.0
  }

  function PerUnit(fee: real, volume: real): real { if volume == 0.0 then 0.0 else fee / volume }

  function Raised(price: real, slip: real): real { price * (1.0 + slip) }

  function Lowered(price: real, slip: real): real { price * (1.0 - slip) }

  function CrossingAt(s: Settings, a: Ask, b: Ask, volume: real): Crossing {
    var slip := Slippage(s, volume, a.size, b.size);
    var pa, pb := Raised(a.price, slip), Lowered(b.price, slip);
    var gross := (pb - pa) * volume;
    var feeA := EstimateFee(s, a.venue, pa, volume, s.fallbackA);
    var feeB := EstimateFee(s, b.venue, pb, volume, s.fallbackB);
    Crossing(pa + PerUnit(feeA, volume), pb - PerUnit(feeB, volume), volume,
             gross, gross - feeA - feeB, slip, feeA, feeB)
  }

  // What one crossing comes to: the asks slipped up, the bids down, each side's estimated fee
  // on its own venue and at its own slipped price, and the prices with their fees included.
  lemma CrossingFigures(s: Settings, a: Ask, b: Ask, volume: real)
    ensures var t, slip := CrossingAt(s, a, b, volume), Slippage(s, volume, a.size, b.size);
            var pa, pb := Raised(a.price, slip), Lowered(b.price, slip);
            && pa == a.price + a.price * slip && pb == b.price - b.price * slip
            && t.volume == volume && t.slippage == slip
            && t.buyFee == EstimateFee(s, a.venue, pa, volume, s.fallbackA)
            && t.sellFee == EstimateFee(s, b.venue, pb, volume, s.fallbackB)
            && t.gross == (pb - pa) * volume && t.net == t.gross - t.buyFee - t.sellFee
            && (volume != 0.0 ==>
                  t.buyPrice * volume == pa * volume + t.buyFee && t.sellPrice * volume == pb * volume - t.sellFee)
  {
    hide Slippage, EstimateFee;
    var slip := Slippage(s, volume, a.size, b.size);
    var pa, pb := Raised(a.price, slip), Lowered(b.price, slip);
    if volume != 0.0 {
      WithFee(pa, EstimateFee(s, a.venue, pa, volume, s.fallbackA), volume);
      WithFee(pb, -EstimateFee(s, b.venue, pb, volume, s.fallbackB), volume);
    }
  }

  lemma WithFee(price: real, fee: real, volume: real)
    requires volume != 0.0
    ensures (price + fee / volume) * volume == price * volume + fee
  {
    assert fee / volume * volume == fee;
  }

  // Where the two indices go after drawing (or, below the minimum, skipping) at a pair.
  function Past(i: nat, size: real, volume: real): nat { if size - volume <= 0.0 then i + 1 else i }

  function Crossings(s: Settings, A: seq<Ask>, B: seq<Ask>, i: nat, j: nat, room: nat): (ts: seq<Crossing>)
    requires i <= |A| && j <= |B|
    ensures |ts| <= room
    decreases |A| - i + |B| - j
  {
    if i == |A| || j == |B| || room == 0 || !Crosses(s, A[i], B[j]) then []
    else
      var volume := Min(A[i].size, B[j].size);
      if volume < s.minVolume then
        if A[i].size <= B[j].size then Crossings(s, A, B, i + 1, j, room) else Crossings(s, A, B, i, j + 1, room)
      else
        var i', j' := Past(i, A[i].size, volume), Past(j, B[j].size, volume);
        var trade := CrossingAt(s, A[i], B[j], volume);
        if trade.net > 0.0 then [trade] + Crossings(s, A, B, i', j', room - 1)
        else Crossings(s, A, B, i', j', room)
  }

  method OverlappingVolume(buys: seq<Level>, sells: seq<Level>, va: Venue, vb: Venue, s: Settings, maxTrades: nat)
    returns (trades: seq<Crossing>)
    ensures trades == Crossings(s, Tag(SortByPrice(buys), va), Tag(SortDescending(sells), vb), 0, 0, maxTrades)
  {
    hide Crossings, CrossingAt, Tag, SortByPrice, SortDescending, Crosses;
    var A, B := Tag(SortByPrice(buys), va), Tag(SortDescending(sells), vb);
    trades := [];
    if A == [] || B == [] || !Crosses(s, A[0], B[0]) {
      CrossingsRound(s, A, B, 0, 0, maxTrades);
      return;
    }
    var i, j := 0, 0;
    while i < |A| && j < |B| && |trades| < maxTrades
      invariant 0 <= i <= |A| && 0 <= j <= |B| && |trades| <= maxTrades
      invariant Crossings(s, A, B, 0, 0, maxTrades) == trades + Crossings(s, A, B, i, j, maxTrades - |trades|)
      decreases |A| - i + |B| - j
    {
      CrossingsRound(s, A, B, i, j, maxTrades - |trades|);
      if !Crosses(s, A[i], B[j]) { break; }
      var volume := Min(A[i].size, B[j].size);
      if volume < s.minVolume {
        if A[i].size <= B[j].size { i := i + 1; } else { j := j + 1; }
        continue;
      }
      var trade := CrossingAt(s, A[i], B[j], volume);
      ghost var before := trades;
      if trade.net > 0.0 { trades := trades + [trade]; }
      assert trade.net > 0.0 ==> forall rest: seq<Crossing> :: before + ([trade] + rest) == trades + rest;
      i, j := Past(i, A[i].size, volume), Past(j, B[j].size, volume);
    }
    CrossingsRound(s, A, B, i, j, maxTrades - |trades|);
    assert trades + [] == trades;
  }

  lemma CrossingsRound(s: Settings, A: seq<Ask>, B: seq<Ask>, i: nat, j: nat, room: nat)
    requires i <= |A| && j <= |B|
    ensures i == |A| || j == |B| || room == 0 || !Crosses(s, A[i], B[j]) ==> Crossings(s, A, B, i, j, room) == []
    ensures i < |A| && j < |B| && room > 0 && Crosses(s, A[i], B[j]) ==>
      var volume := Min(A[i].size, B[j].size);
      var i', j' := Past(i, A[i].size, volume), Past(j, B[j].size, volume);
      Crossings(s, A, B, i, j, room) ==
        if volume < s.minVolume then
          (if A[i].size <= B[j].size then Crossings(s, A, B, i + 1, j, room) else Crossings(s, A, B, i, j + 1, room))
        else if CrossingAt(s, A[i], B[j], volume).net > 0.0 then
          [CrossingAt(s, A[i], B[j], volume)] + Crossings(s, A, B, i', j', room - 1)
        else Crossings(s, A, B, i', j', room)
  {
  }

  // --------------------------------------------------------- what each level gives up

  // One pair the walk trades on: which level of each side, and how much.
  datatype Draw = Draw(buy: nat, sell: nat, volume: real)

  function Draws(s: Settings, A: seq<Ask>, B: seq<Ask>, i: nat, j: nat): seq<Draw>
    requires i <= |A| && j <= |B|
    decreases |A| - i + |B| - j
  {
    if i == |A| || j == |B| || !Crosses(s, A[i], B[j]) then []
    else
      var volume := Min(A[i].size, B[j].size);
      if volume < s.minVolume then
        if A[i].size <= B[j].size then Draws(s, A, B, i + 1, j) else Draws(s, A, B, i, j + 1)
      else [Draw(i, j, volume)] + Draws(s, A, B, Past(i, A[i].size, volume), Past(j, B[j].size, volume))
  }

  // Every pair drawn crosses after the flat rates and gives the smaller of its two levels, at
  // least the minimum; a pair that does not cross ends the walk.
  lemma {:induction false} DrawsCross(s: Settings, A: seq<Ask>, B: seq<Ask>, i: nat, j: nat)
    requires i <= |A| && j <= |B|
    ensures forall d :: d in Draws(s, A, B, i, j) ==>
              && d.buy < |A| && d.sell < |B| && d.volume >= s.minVolume
              && d.volume == (if A[d.buy].size <= B[d.sell].size then A[d.buy].size else B[d.sell].size)
              && B[d.sell].price - B[d.sell].price * s.fallbackB > A[d.buy].price + A[d.buy].price * s.fallbackA
    ensures i < |A| && j < |B| && B[j].price - B[j].price * s.fallbackB <= A[i].price + A[i].price * s.fallbackA ==>
              Draws(s, A, B, i, j) == []
    decreases |A| - i + |B| - j
  {
    if i < |A| && j < |B| && Crosses(s, A[i], B[j]) {
      var volume := Min(A[i].size, B[j].size);
      if volume < s.minVolume {
        if A[i].size <= B[j].size { DrawsCross(s, A, B, i + 1, j); } else { DrawsCross(s, A, B, i, j + 1); }
      } else {
        DrawsCross(s, A, B, Past(i, A[i].size, volume), Past(j, B[j].size, volume));
      }
    }
  }

  function Bought(ds: seq<Draw>, i: nat): real {
    if ds == [] then 0.0 else (if ds[0].buy == i then ds[0].volume else 0.0) + Bought(ds[1..], i)
  }

  function Sold(ds: seq<Draw>, j: nat): real {
    if ds == [] then 0.0 else (if ds[0].sell == j then ds[0].volume else 0.0) + Sold(ds[1..], j)
  }

  function TotalDrawn(ds: seq<Draw>): real {
    if ds == [] then 0.0 else ds[0].volume + TotalDrawn(ds[1..])
  }

  // No level gives more than it holds.
  ghost predicate WithinBook(ds: seq<Draw>, A: seq<Ask>, B: seq<Ask>) {
    && (forall i :: 0 <= i < |A| && Bought(ds, i) != 0.0 ==> Bought(ds, i) <= A[i].size)
    && (forall j :: 0 <= j < |B| && Sold(ds, j) != 0.0 ==> Sold(ds, j) <= B[j].size)
  }

  // Depth of the bids from j on that cross ask a, levels under the minimum left out.
  function BidsAgainst(s: Settings, a: Ask, B: seq<Ask>, j: nat): real
    requires j <= |B|
    decreases |B| - j
  {
    if j == |B| || !Crosses(s, a, B[j]) then 0.0
    else (if B[j].size < s.minVolume then 0.0 else B[j].size) + BidsAgainst(s, a, B, j + 1)
  }

  function AsksAgainst(s: Settings, b: Ask, A: seq<Ask>, i: nat): real
    requires i <= |A|
    decreases |A| - i
  {
    if i == |A| || !Crosses(s, A[i], b) then 0.0
    else (if A[i].size < s.minVolume then 0.0 else A[i].size) + AsksAgainst(s, b, A, i + 1)
  }

  // Equal levels pair off; the first larger one must hold everything that still crosses it.
  predicate Holds(s: Settings, A: seq<Ask>, B: seq<Ask>, i: nat, j: nat)
    requires i <= |A| && j <= |B|
    decreases |A| - i + |B| - j
  {
    if i == |A| || j == |B| || !Crosses(s, A[i], B[j]) then true
    else if Min(A[i].size, B[j].size) < s.minVolume then
      if A[i].size <= B[j].size then Holds(s, A, B, i + 1, j) else Holds(s, A, B, i, j + 1)
    else if A[i].size == B[j].size then Holds(s, A, B, i + 1, j + 1)
    else if A[i].size > B[j].size then BidsAgainst(s, A[i], B, j) <= A[i].size
    else AsksAgainst(s, B[j], A, i) <= B[j].size
  }

  lemma BoughtCons(d: Draw, ds: seq<Draw>)
    ensures forall i :: Bought([d] + ds, i) == (if d.buy == i then d.volume else 0.0) + Bought(ds, i)
    ensures forall j :: Sold([d] + ds, j) == (if d.sell == j then d.volume else 0.0) + Sold(ds, j)
    ensures TotalDrawn([d] + ds) == d.volume + TotalDrawn(ds)
  {
    assert ([d] + ds)[1..] == ds;
  }

  // Nothing is drawn behind the indices, and nothing negative.
  lemma {:induction false} DrawsAhead(s: Settings, A: seq<Ask>, B: seq<Ask>, i: nat, j: nat)
    requires i <= |A| && j <= |B| && s.minVolume > 0.0
    ensures forall k :: 0 <= k < i ==> Bought(Draws(s, A, B, i, j), k) == 0.0
    ensures forall k :: 0 <= k < j ==> Sold(Draws(s, A, B, i, j), k) == 0.0
    ensures forall k: nat :: Bought(Draws(s, A, B, i, j), k) >= 0.0 && Sold(Draws(s, A, B, i, j), k) >= 0.0
    decreases |A| - i + |B| - j
  {
    hide Bought, Sold, Crosses;
    if i == |A| || j == |B| || !Crosses(s, A[i], B[j]) {
      NothingDrawn();
    } else {
      var volume := Min(A[i].size, B[j].size);
      if volume < s.minVolume {
        if A[i].size <= B[j].size { DrawsAhead(s, A, B, i + 1, j); } else { DrawsAhead(s, A, B, i, j + 1); }
      } else {
        var i', j' := Past(i, A[i].size, volume), Past(j, B[j].size, volume);
        DrawsAhead(s, A, B, i', j');
        BoughtCons(Draw(i, j, volume), Draws(s, A, B, i', j'));
      }
    }
  }

  lemma NothingDrawn()
    ensures forall k: nat :: Bought([], k) == 0.0 && Sold([], k) == 0.0
    ensures TotalDrawn([]) == 0.0
  {
  }

  // One ask against the bids from j on: it gives all of what crosses it, or, if that is not
  // less than what it holds, at least what it holds.
  lemma {:induction false} AskMeetsBids(s: Settings, A: seq<Ask>, B: seq<Ask>, i: nat, j: nat)
    requires i < |A| && j <= |B| && s.minVolume > 0.0 && A[i].size >= s.minVolume
    ensures var ds, cross := Draws(s, A, B, i, j), BidsAgainst(s, A[i], B, j);
            && cross >= 0.0
            && (cross >= A[i].size ==> Bought(ds, i) >= A[i].size)
            && (cross < A[i].size ==>
                  && Bought(ds, i) == cross == TotalDrawn(ds) && (forall k: nat :: k != i ==> Bought(ds, k) == 0.0)
                  && (forall k: nat :: Sold(ds, k) != 0.0 ==> k < |B| && Sold(ds, k) <= B[k].size))
    decreases |B| - j
  {
    hide Bought, Sold, TotalDrawn, Crosses;
    if j == |B| || !Crosses(s, A[i], B[j]) {
      NothingDrawn();
    } else {
      AskMeetsBids(s, A, B, i, j + 1);
      if B[j].size >= s.minVolume {
        var volume := Min(A[i].size, B[j].size);
        var rest := Draws(s, A, B, Past(i, A[i].size, volume), Past(j, B[j].size, volume));
        BoughtCons(Draw(i, j, volume), rest);
        DrawsAhead(s, A, B, Past(i, A[i].size, volume), Past(j, B[j].size, volume));
      }
    }
  }

  lemma {:induction false} BidMeetsAsks(s: Settings, A: seq<Ask>, B: seq<Ask>, i: nat, j: nat)
    requires i <= |A| && j < |B| && s.minVolume > 0.0 && B[j].size >= s.minVolume
    ensures var ds, cross := Draws(s, A, B, i, j), AsksAgainst(s, B[j], A, i);
            && cross >= 0.0
            && (cross >= B[j].size ==> Sold(ds, j) >= B[j].size)
            && (cross < B[j].size ==>
                  && Sold(ds, j) == cross == TotalDrawn(ds) && (forall k: nat :: k != j ==> Sold(ds, k) == 0.0)
                  && (forall k: nat :: Bought(ds, k) != 0.0 ==> k < |A| && Bought(ds, k) <= A[k].size))
    decreases |A| - i
  {
    hide Bought, Sold, TotalDrawn, Crosses;
    if i == |A| || !Crosses(s, A[i], B[j]) {
      NothingDrawn();
    } else {
      BidMeetsAsks(s, A, B, i + 1, j);
      if A[i].size >= s.minVolume {
        var volume := Min(A[i].size, B[j].size);
        var rest := Draws(s, A, B, Past(i, A[i].size, volume), Past(j, B[j].size, volume));
        BoughtCons(Draw(i, j, volume), rest);
        DrawsAhead(s, A, B, Past(i, A[i].size, volume), Past(j, B[j].size, volume));
      }
    }
  }

  // The draws stay within the book exactly when the books hold.
  lemma {:induction false} WithinBookIff(s: Settings, A: seq<Ask>, B: seq<Ask>, i: nat, j: nat)
    requires i <= |A| && j <= |B| && s.minVolume > 0.0
    ensures WithinBook(Draws(s, A, B, i, j), A, B) <==> Holds(s, A, B, i, j)
    decreases |A| - i + |B| - j
  {
    hide Bought, Sold, Crosses, WithinBook, BidsAgainst, AsksAgainst;
    if i == |A| || j == |B| || !Crosses(s, A[i], B[j]) {
      EmptyWithin(A, B);
    } else if Min(A[i].size, B[j].size) < s.minVolume {
      if A[i].size <= B[j].size { WithinBookIff(s, A, B, i + 1, j); } else { WithinBookIff(s, A, B, i, j + 1); }
    } else if A[i].size == B[j].size {
      WithinBookIff(s, A, B, i + 1, j + 1);
      EqualLevels(s, A, B, i, j);
    } else if A[i].size > B[j].size {
      LargerAsk(s, A, B, i, j);
    } else {
      LargerBid(s, A, B, i, j);
    }
  }

  lemma EmptyWithin(A: seq<Ask>, B: seq<Ask>)
    ensures WithinBook([], A, B)
  {
  }

  lemma EqualLevels(s: Settings, A: seq<Ask>, B: seq<Ask>, i: nat, j: nat)
    requires i < |A| && j < |B| && s.minVolume > 0.0
    requires Crosses(s, A[i], B[j]) && A[i].size == B[j].size >= s.minVolume
    ensures WithinBook(Draws(s, A, B, i, j), A, B) <==> WithinBook(Draws(s, A, B, i + 1, j + 1), A, B)
  {
    hide Bought, Sold, Crosses;
    var rest := Draws(s, A, B, i + 1, j + 1);
    DrawsAhead(s, A, B, i + 1, j + 1);
    BoughtCons(Draw(i, j, A[i].size), rest);
    var ds := Draws(s, A, B, i, j);
    assert forall k: nat :: k != i ==> Bought(ds, k) == Bought(rest, k);
    assert forall k: nat :: k != j ==> Sold(ds, k) == Sold(rest, k);
    assert Bought(ds, i) == A[i].size && Sold(ds, j) == B[j].size;
  }

  lemma LargerAsk(s: Settings, A: seq<Ask>, B: seq<Ask>, i: nat, j: nat)
    requires i < |A| && j < |B| && s.minVolume > 0.0
    requires Crosses(s, A[i], B[j]) && A[i].size > B[j].size >= s.minVolume
    ensures WithinBook(Draws(s, A, B, i, j), A, B) <==> BidsAgainst(s, A[i], B, j) <= A[i].size
  {
    hide Bought, Sold, TotalDrawn, Crosses;
    var rest, ds := Draws(s, A, B, i, j + 1), Draws(s, A, B, i, j);
    AskMeetsBids(s, A, B, i, j + 1);
    DrawsAhead(s, A, B, i, j + 1);
    BoughtCons(Draw(i, j, B[j].size), rest);
    assert Bought(ds, i) == B[j].size + Bought(rest, i) && Sold(ds, j) == B[j].size;
    if BidsAgainst(s, A[i], B, j + 1) < A[i].size {
      assert forall k: nat :: k != i ==> Bought(ds, k) == 0.0;
      assert forall k: nat :: k != j ==> Sold(ds, k) == Sold(rest, k);
    }
  }

  lemma LargerBid(s: Settings, A: seq<Ask>, B: seq<Ask>, i: nat, j: nat)
    requires i < |A| && j < |B| && s.minVolume > 0.0
    requires Crosses(s, A[i], B[j]) && B[j].size > A[i].size >= s.minVolume
    ensures WithinBook(Draws(s, A, B, i, j), A, B) <==> AsksAgainst(s, B[j], A, i) <= B[j].size
  {
    hide Bought, Sold, TotalDrawn, Crosses;
    var rest, ds := Draws(s, A, B, i + 1, j), Draws(s, A, B, i, j);
    BidMeetsAsks(s, A, B, i + 1, j);
    DrawsAhead(s, A, B, i + 1, j);
    BoughtCons(Draw(i, j, A[i].size), rest);
    assert Sold(ds, j) == A[i].size + Sold(rest, j) && Bought(ds, i) == A[i].size;
    if AsksAgainst(s, B[j], A, i + 1) < B[j].size {
      assert forall k: nat :: k != j ==> Sold(ds, k) == 0.0;
      assert forall k: nat :: k != i ==> Bought(ds, k) == Bought(rest, k);
    }
  }

  // ------------------------------------------------------------------ total volume

  function DepthFrom(A: seq<Ask>, i: nat): (d: real)
    requires i <= |A|
    ensures d >= 0.0
    decreases |A| - i
  {
    if i == |A| then 0.0 else Max(A[i].size, 0.0) + DepthFrom(A, i + 1)
  }

  function Volume(ts: seq<Crossing>): real {
    if ts == [] then 0.0 else ts[0].volume + Volume(ts[1..])
  }

  lemma {:induction false} CrossingDepth(s: Settings, a: Ask, b: Ask, A: seq<Ask>, B: seq<Ask>, i: nat, j: nat)
    requires i <= |A| && j <= |B| && s.minVolume > 0.0
    ensures BidsAgainst(s, a, B, j) <= DepthFrom(B, j) && AsksAgainst(s, b, A, i) <= DepthFrom(A, i)
    decreases |A| - i + |B| - j
  {
    if j < |B| { CrossingDepth(s, a, b, A, B, i, j + 1); }
    if i < |A| { CrossingDepth(s, a, b, A, B, i + 1, j); }
  }

  // Every round finishes a level, so the sum of both depths bounds the walk on any books;
  // on books that hold, it stays within the smaller of the two.
  lemma {:induction false} DrawnWithinDepth(s: Settings, A: seq<Ask>, B: seq<Ask>, i: nat, j: nat)
    requires i <= |A| && j <= |B| && s.minVolume > 0.0
    ensures 0.0 <= TotalDrawn(Draws(s, A, B, i, j)) <= DepthFrom(A, i) + DepthFrom(B, j)
    ensures Holds(s, A, B, i, j) ==> TotalDrawn(Draws(s, A, B, i, j)) <= Min(DepthFrom(A, i), DepthFrom(B, j))
    decreases |A| - i + |B| - j
  {
    hide Bought, Sold, TotalDrawn, Crosses, BidsAgainst, AsksAgainst;
    if i == |A| || j == |B| || !Crosses(s, A[i], B[j]) {
      NothingDrawn();
    } else {
      var volume := Min(A[i].size, B[j].size);
      if volume < s.minVolume {
        if A[i].size <= B[j].size { DrawnWithinDepth(s, A, B, i + 1, j); } else { DrawnWithinDepth(s, A, B, i, j + 1); }
      } else {
        var i', j' := Past(i, A[i].size, volume), Past(j, B[j].size, volume);
        BoughtCons(Draw(i, j, volume), Draws(s, A, B, i', j'));
        DrawnWithinDepth(s, A, B, i', j');
        if A[i].size > B[j].size && Holds(s, A, B, i, j) { AskHolds(s, A, B, i, j); }
        if A[i].size < B[j].size && Holds(s, A, B, i, j) { BidHolds(s, A, B, i, j); }
      }
    }
  }

  lemma AskHolds(s: Settings, A: seq<Ask>, B: seq<Ask>, i: nat, j: nat)
    requires i < |A| && j < |B| && s.minVolume > 0.0
    requires Crosses(s, A[i], B[j]) && A[i].size > B[j].size >= s.minVolume && BidsAgainst(s, A[i], B, j) <= A[i].size
    ensures TotalDrawn(Draws(s, A, B, i, j)) <= Min(DepthFrom(A, i), DepthFrom(B, j))
  {
    hide Bought, Sold, TotalDrawn, Crosses;
    AskMeetsBids(s, A, B, i, j + 1);
    BoughtCons(Draw(i, j, B[j].size), Draws(s, A, B, i, j + 1));
    CrossingDepth(s, A[i], B[j], A, B, i, j);
  }

  lemma BidHolds(s: Settings, A: seq<Ask>, B: seq<Ask>, i: nat, j: nat)
    requires i < |A| && j < |B| && s.minVolume > 0.0
    requires Crosses(s, A[i], B[j]) && B[j].size > A[i].size >= s.minVolume && AsksAgainst(s, B[j], A, i) <= B[j].size
    ensures TotalDrawn(Draws(s, A, B, i, j)) <= Min(DepthFrom(A, i), DepthFrom(B, j))
  {
    hide Bought, Sold, TotalDrawn, Crosses;
    BidMeetsAsks(s, A, B, i + 1, j);
    BoughtCons(Draw(i, j, A[i].size), Draws(s, A, B, i + 1, j));
    CrossingDepth(s, A[i], B[j], A, B, i, j);
  }

  // What is recorded is at most what is drawn, whatever the cap on trades.
  lemma {:induction false} RecordedIsDrawn(s: Settings, A: seq<Ask>, B: seq<Ask>, i: nat, j: nat, room: nat)
    requires i <= |A| && j <= |B| && s.minVolume > 0.0
    ensures Volume(Crossings(s, A, B, i, j, room)) <= TotalDrawn(Draws(s, A, B, i, j))
    decreases |A| - i + |B| - j
  {
    hide Crossings, CrossingAt, Bought, Sold, TotalDrawn, Crosses, DepthFrom, Holds;
    CrossingsRound(s, A, B, i, j, room);
    DrawnWithinDepth(s, A, B, i, j);
    if i == |A| || j == |B| || !Crosses(s, A[i], B[j]) {
      NothingDrawn();
    } else if room > 0 {
      var volume := Min(A[i].size, B[j].size);
      if volume < s.minVolume {
        if A[i].size <= B[j].size { RecordedIsDrawn(s, A, B, i + 1, j, room); }
        else { RecordedIsDrawn(s, A, B, i, j + 1, room); }
      } else {
        var i', j' := Past(i, A[i].size, volume), Past(j, B[j].size, volume);
        BoughtCons(Draw(i, j, volume), Draws(s, A, B, i', j'));
        CrossingVolume(s, A[i], B[j], volume);
        if CrossingAt(s, A[i], B[j], volume).net > 0.0 {
          RecordedIsDrawn(s, A, B, i', j', room - 1);
        } else {
          RecordedIsDrawn(s, A, B, i', j', room);
        }
      }
    }
  }

  lemma CrossingVolume(s: Settings, a: Ask, b: Ask, volume: real)
    ensures CrossingAt(s, a, b, volume).volume == volume
  {
  }

  // The recorded volume is really there when the books hold.
  lemma RecordedWithinDepth(s: Settings, A: seq<Ask>, B: seq<Ask>, room: nat)
    requires s.minVolume > 0.0 && Holds(s, A, B, 0, 0)
    ensures Volume(Crossings(s, A, B, 0, 0, room)) <= Min(DepthFrom(A, 0), DepthFrom(B, 0))
  {
    RecordedIsDrawn(s, A, B, 0, 0, room);
    DrawnWithinDepth(s, A, B, 0, 0);
  }

  // --------------------------------------------------- what each level is recorded for

  // The draws behind the recorded crossings: those that net something, up to the cap.
  function Recorded(s: Settings, A: seq<Ask>, B: seq<Ask>, i: nat, j: nat, room: nat): seq<Draw>
    requires i <= |A| && j <= |B|
    decreases |A| - i + |B| - j
  {
    if i == |A| || j == |B| || room == 0 || !Crosses(s, A[i], B[j]) then []
    else
      var volume := Min(A[i].size, B[j].size);
      if volume < s.minVolume then
        if A[i].size <= B[j].size then Recorded(s, A, B, i + 1, j, room) else Recorded(s, A, B, i, j + 1, room)
      else
        var i', j' := Past(i, A[i].size, volume), Past(j, B[j].size, volume);
        if CrossingAt(s, A[i], B[j], volume).net > 0.0 then [Draw(i, j, volume)] + Recorded(s, A, B, i', j', room - 1)
        else Recorded(s, A, B, i', j', room)
  }

  ghost predicate RecordOf(s: Settings, A: seq<Ask>, B: seq<Ask>, ts: seq<Crossing>, ds: seq<Draw>) {
    |ts| == |ds| && forall k :: 0 <= k < |ds| ==>
      ds[k].buy < |A| && ds[k].sell < |B| && ts[k] == CrossingAt(s, A[ds[k].buy], B[ds[k].sell], ds[k].volume)
  }

  lemma {:induction false} CrossingsAreRecorded(s: Settings, A: seq<Ask>, B: seq<Ask>, i: nat, j: nat, room: nat)
    requires i <= |A| && j <= |B|
    ensures RecordOf(s, A, B, Crossings(s, A, B, i, j, room), Recorded(s, A, B, i, j, room))
    decreases |A| - i + |B| - j
  {
    hide Crosses, CrossingAt;
    if i < |A| && j < |B| && room > 0 && Crosses(s, A[i], B[j]) {
      var volume := Min(A[i].size, B[j].size);
      var i', j' := Past(i, A[i].size, volume), Past(j, B[j].size, volume);
      if volume < s.minVolume {
        if A[i].size <= B[j].size { CrossingsAreRecorded(s, A, B, i + 1, j, room); }
        else { CrossingsAreRecorded(s, A, B, i, j + 1, room); }
      } else if CrossingAt(s, A[i], B[j], volume).net > 0.0 {
        CrossingsAreRecorded(s, A, B, i', j', room - 1);
      } else {
        CrossingsAreRecorded(s, A, B, i', j', room);
      }
    }
  }

  // Recording never draws more from a level than walking does.
  lemma {:induction false} RecordedBelowDrawn(s: Settings, A: seq<Ask>, B: seq<Ask>, i: nat, j: nat, room: nat, k: nat)
    requires i <= |A| && j <= |B| && s.minVolume > 0.0
    ensures 0.0 <= Bought(Recorded(s, A, B, i, j, room), k) <= Bought(Draws(s, A, B, i, j), k)
    ensures 0.0 <= Sold(Recorded(s, A, B, i, j, room), k) <= Sold(Draws(s, A, B, i, j), k)
    decreases |A| - i + |B| - j
  {
    hide Bought, Sold, Crosses, CrossingAt;
    NothingDrawn();
    DrawsAhead(s, A, B, i, j);
    if i < |A| && j < |B| && room > 0 && Crosses(s, A[i], B[j]) {
      var volume := Min(A[i].size, B[j].size);
      var i', j' := Past(i, A[i].size, volume), Past(j, B[j].size, volume);
      if volume < s.minVolume {
        if A[i].size <= B[j].size { RecordedBelowDrawn(s, A, B, i + 1, j, room, k); }
        else { RecordedBelowDrawn(s, A, B, i, j + 1, room, k); }
      } else {
        BoughtCons(Draw(i, j, volume), Draws(s, A, B, i', j'));
        if CrossingAt(s, A[i], B[j], volume).net > 0.0 {
          RecordedBelowDrawn(s, A, B, i', j', room - 1, k);
          BoughtCons(Draw(i, j, volume), Recorded(s, A, B, i', j', room - 1));
        } else {
          RecordedBelowDrawn(s, A, B, i', j', room, k);
        }
      }
    }
  }

  // Level by level: on books that hold, no trade list, capped or not, sells or buys more of
  // a level than is there. When every crossing nets something and none is cut off, the
  // condition is exact.
  lemma RecordedWithinLevels(s: Settings, A: seq<Ask>, B: seq<Ask>, room: nat)
    requires s.minVolume > 0.0
    ensures Holds(s, A, B, 0, 0) ==> WithinBook(Recorded(s, A, B, 0, 0, room), A, B)
    ensures Recorded(s, A, B, 0, 0, room) == Draws(s, A, B, 0, 0) ==>
              (WithinBook(Recorded(s, A, B, 0, 0, room), A, B) <==> Holds(s, A, B, 0, 0))
  {
    hide Holds, Recorded, Draws, Bought, Sold;
    WithinBookIff(s, A, B, 0, 0);
    if Holds(s, A, B, 0, 0) {
      var ds := Recorded(s, A, B, 0, 0, room);
      forall k | 0 <= k < |A| && Bought(ds, k) != 0.0 ensures Bought(ds, k) <= A[k].size {
        RecordedBelowDrawn(s, A, B, 0, 0, room, k);
      }
      forall k | 0 <= k < |B| && Sold(ds, k) != 0.0 ensures Sold(ds, k) <= B[k].size {
        RecordedBelowDrawn(s, A, B, 0, 0, room, k);
      }
    }
  }

  lemma {:induction false} AllRecorded(s: Settings, A: seq<Ask>, B: seq<Ask>, i: nat, j: nat, room: nat)
    requires i <= |A| && j <= |B| && room >= |A| - i + |B| - j
    requires forall a, b, v :: a in A && b in B && Crosses(s, a, b) && v >= s.minVolume
                               ==> CrossingAt(s, a, b, v).net > 0.0
    ensures Recorded(s, A, B, i, j, room) == Draws(s, A, B, i, j)
    decreases |A| - i + |B| - j
  {
    hide Crosses, CrossingAt;
    if i < |A| && j < |B| && room > 0 && Crosses(s, A[i], B[j]) {
      var volume := Min(A[i].size, B[j].size);
      if volume < s.minVolume {
        if A[i].size <= B[j].size { AllRecorded(s, A, B, i + 1, j, room); }
        else { AllRecorded(s, A, B, i, j + 1, room); }
      } else {
        assert A[i] in A && B[j] in B && CrossingAt(s, A[i], B[j], volume).net > 0.0;
        AllRecorded(s, A, B, Past(i, A[i].size, volume), Past(j, B[j].size, volume), room - 1);
      }
    }
  }

  // So when every crossing pays and none is cut off, the recorded trades stay within every
  // level if and only if the books hold.
  lemma RecordedWithinLevelsIff(s: Settings, A: seq<Ask>, B: seq<Ask>, room: nat)
    requires s.minVolume > 0.0 && room >= |A| + |B|
    requires forall a, b, v :: a in A && b in B && Crosses(s, a, b) && v >= s.minVolume
                               ==> CrossingAt(s, a, b, v).net > 0.0
    ensures WithinBook(Recorded(s, A, B, 0, 0, room), A, B) <==> Holds(s, A, B, 0, 0)
  {
    hide Holds, Recorded, Draws, CrossingAt, Crosses;
    AllRecorded(s, A, B, 0, 0, room);
    RecordedWithinLevels(s, A, B, room);
  }

  // And is not when they do not: one ask of a hundred is sold into two bids of sixty.
  lemma LevelSoldTwice()
    ensures var s := Settings(Charged, 500, 10.0, false, 0.0, 0.0);
            var A, B := [Ask(0.4, 100.0, Kalshi)], [Ask(0.6, 60.0, Polymarket), Ask(0.59, 60.0, Polymarket)];
            !Holds(s, A, B, 0, 0) && Volume(Crossings(s, A, B, 0, 0, 10)) == 120.0 > DepthFrom(A, 0)
  {
    hide Crossings, CrossingAt;
    var s := Settings(Charged, 500, 10.0, false, 0.0, 0.0);
    var A, B := [Ask(0.4, 100.0, Kalshi)], [Ask(0.6, 60.0, Polymarket), Ask(0.59, 60.0, Polymarket)];
    CrossingsRound(s, A, B, 0, 0, 10);
    CrossingsRound(s, A, B, 0, 1, 9);
    CrossingsRound(s, A, B, 0, 2, 8);
    TwiceProfitable(s);
    CrossingVolume(s, A[0], B[0], 60.0);
    CrossingVolume(s, A[0], B[1], 60.0);
    var first, second := CrossingAt(s, A[0], B[0], 60.0), CrossingAt(s, A[0], B[1], 60.0);
    assert Crossings(s, A, B, 0, 0, 10) == [first] + ([second] + []);
    assert Volume([second]) == 60.0;
    assert DepthFrom(A, 1) == 0.0;
    assert BidsAgainst(s, A[0], B, 2) == 0.0 && BidsAgainst(s, A[0], B, 1) == 60.0;
  }

  lemma TwiceProfitable(s: Settings)
    requires s == Settings(Charged, 500, 10.0, false, 0.0, 0.0)
    ensures CrossingAt(s, Ask(0.4, 100.0, Kalshi), Ask(0.6, 60.0, Polymarket), 60.0).net > 0.0
    ensures CrossingAt(s, Ask(0.4, 100.0, Kalshi), Ask(0.59, 60.0, Polymarket), 60.0).net > 0.0
  {
  }

  // ------------------------------------------------------------------ the opportunity

  datatype Verdict =
    | NoOpportunity
    | Opportunity(profit: real, margin: real, volume: real, avgBuy: real, avgSell: real, count: nat)
    | DividesByZero

  function Profit(ts: seq<Crossing>): real { if ts == [] then 0.0 else ts[0].net + Profit(ts[1..]) }

  function Outlay(ts: seq<Crossing>): real { if ts == [] then 0.0 else ts[0].buyPrice * ts[0].volume + Outlay(ts[1..]) }

  function Proceeds(ts: seq<Crossing>): real {
    if ts == [] then 0.0 else ts[0].sellPrice * ts[0].volume + Proceeds(ts[1..])
  }

  // The averages, and the margin between the threshold and the plausibility cap.
  function Judge(profit: real, volume: real, outlay: real, proceeds: real, count: nat, threshold: real,
                 cap: real): Verdict {
    if volume == 0.0 then DividesByZero
    else
      var avgBuy, avgSell := outlay / volume, proceeds / volume;
      if volume > 0.0 && avgBuy * volume == 0.0 then DividesByZero
      else
        var margin := if volume > 0.0 then profit / (avgBuy * volume) else 0.0;
        if margin < threshold || margin > cap then NoOpportunity
        else Opportunity(profit, margin, volume, avgBuy, avgSell, count)
  }

  function VerdictOf(ts: seq<Crossing>, threshold: real, cap: real): Verdict {
    if ts == [] then NoOpportunity
    else Judge(Profit(ts), Volume(ts), Outlay(ts), Proceeds(ts), |ts|, threshold, cap)
  }

  method AccurateArbitrage(buys: seq<Level>, sells: seq<Level>, va: Venue, vb: Venue, s: Settings, maxTrades: nat,
                           threshold: real, cap: real) returns (r: Verdict)
    ensures r == VerdictOf(Crossings(s, Tag(SortByPrice(buys), va), Tag(SortDescending(sells), vb), 0, 0, maxTrades),
                           threshold, cap)
  {
    hide Crossings, Tag, SortByPrice, SortDescending, Judge;
    var ts := OverlappingVolume(buys, sells, va, vb, s, maxTrades);
    assert ts[..0] == [] && ts[..|ts|] == ts;
    var profit, volume, outlay, proceeds := 0.0, 0.0, 0.0, 0.0;
    for i := 0 to |ts|
      invariant profit == Profit(ts[..i]) && volume == Volume(ts[..i])
      invariant outlay == Outlay(ts[..i]) && proceeds == Proceeds(ts[..i])
    {
      SumsSnoc(ts[..i], ts[i]);
      assert ts[..i + 1] == ts[..i] + [ts[i]];
      profit, volume := profit + ts[i].net, volume + ts[i].volume;
      outlay, proceeds := outlay + ts[i].buyPrice * ts[i].volume, proceeds + ts[i].sellPrice * ts[i].volume;
    }
    if ts == [] { return NoOpportunity; }
    r := Judge(profit, volume, outlay, proceeds, |ts|, threshold, cap);
  }

  lemma {:induction false} SumsSnoc(ts: seq<Crossing>, t: Crossing)
    ensures Profit(ts + [t]) == Profit(ts) + t.net && Volume(ts + [t]) == Volume(ts) + t.volume
    ensures Outlay(ts + [t]) == Outlay(ts) + t.buyPrice * t.volume
    ensures Proceeds(ts + [t]) == Proceeds(ts) + t.sellPrice * t.volume
  {
    if ts != [] {
      assert (ts + [t])[1..] == ts[1..] + [t];
      SumsSnoc(ts[1..], t);
    }
  }

  // A recorded trade earns what its two fee-inclusive prices differ by.
  predicate Consistent(t: Crossing) {
    t.volume > 0.0 && t.net > 0.0 && t.net == (t.sellPrice - t.buyPrice) * t.volume
  }

  lemma CrossingConsistent(s: Settings, a: Ask, b: Ask, volume: real)
    requires volume > 0.0 && CrossingAt(s, a, b, volume).net > 0.0
    ensures Consistent(CrossingAt(s, a, b, volume))
  {
    hide Slippage, EstimateFee;
    var slip := Slippage(s, volume, a.size, b.size);
    var pa, pb := Raised(a.price, slip), Lowered(b.price, slip);
    FeesPerUnit(pa, pb, EstimateFee(s, a.venue, pa, volume, s.fallbackA),
                EstimateFee(s, b.venue, pb, volume, s.fallbackB), volume);
  }

  lemma FeesPerUnit(pa: real, pb: real, fa: real, fb: real, volume: real)
    requires volume > 0.0
    ensures (pb - pa) * volume - fa - fb == ((pb - fb / volume) - (pa + fa / volume)) * volume
  {
    var x, y := fa / volume, fb / volume;
    assert x * volume == fa && y * volume == fb;
  }

  lemma {:induction false} AllConsistent(s: Settings, A: seq<Ask>, B: seq<Ask>, i: nat, j: nat, room: nat)
    requires i <= |A| && j <= |B| && s.minVolume > 0.0
    ensures forall t :: t in Crossings(s, A, B, i, j, room) ==> Consistent(t)
    decreases |A| - i + |B| - j
  {
    hide Crossings, CrossingAt, Crosses, Consistent;
    CrossingsRound(s, A, B, i, j, room);
    if i < |A| && j < |B| && room > 0 && Crosses(s, A[i], B[j]) {
      var volume := Min(A[i].size, B[j].size);
      if volume < s.minVolume {
        if A[i].size <= B[j].size { AllConsistent(s, A, B, i + 1, j, room); }
        else { AllConsistent(s, A, B, i, j + 1, room); }
      } else {
        var i', j' := Past(i, A[i].size, volume), Past(j, B[j].size, volume);
        if CrossingAt(s, A[i], B[j], volume).net > 0.0 {
          CrossingConsistent(s, A[i], B[j], volume);
          AllConsistent(s, A, B, i', j', room - 1);
        } else {
          AllConsistent(s, A, B, i', j', room);
        }
      }
    }
  }

  lemma {:induction false} SumsConsistent(ts: seq<Crossing>)
    requires forall t :: t in ts ==> Consistent(t)
    ensures Profit(ts) == Proceeds(ts) - Outlay(ts) && Volume(ts) >= 0.0
    ensures ts != [] ==> Volume(ts) > 0.0 && Profit(ts) > 0.0
  {
    if ts != [] {
      var t := ts[0];
      assert t in ts;
      SumsConsistent(ts[1..]);
      assert (t.sellPrice - t.buyPrice) * t.volume == t.sellPrice * t.volume - t.buyPrice * t.volume;
    }
  }

  lemma AveragesConsistent(profit: real, outlay: real, proceeds: real, volume: real)
    requires volume > 0.0 && profit == proceeds - outlay
    ensures outlay / volume * volume == outlay
    ensures (proceeds / volume - outlay / volume) * volume == profit
  {
    var x, y := outlay / volume, proceeds / volume;
    assert x * volume == outlay && y * volume == proceeds;
  }

  // The three reported figures fit together whatever slippage and fees went in; and an
  // opportunity comes out exactly when the profit lies between the two shares of the outlay.
  lemma OpportunityIsExact(s: Settings, A: seq<Ask>, B: seq<Ask>, room: nat, threshold: real, cap: real)
    requires s.minVolume > 0.0
    ensures var ts := Crossings(s, A, B, 0, 0, room);
            var r := VerdictOf(ts, threshold, cap);
            && (r.Opportunity? ==> r.profit == (r.avgSell - r.avgBuy) * r.volume > 0.0)
            && (r.DividesByZero? <==> ts != [] && Outlay(ts) == 0.0)
            && (Outlay(ts) > 0.0 ==> (r.Opportunity? <==> threshold * Outlay(ts) <= Profit(ts) <= cap * Outlay(ts)))
  {
    hide Crossings, Consistent, Profit, Outlay, Proceeds, Volume;
    var ts := Crossings(s, A, B, 0, 0, room);
    AllConsistent(s, A, B, 0, 0, room);
    SumsConsistent(ts);
    if ts != [] {
      AveragesConsistent(Profit(ts), Outlay(ts), Proceeds(ts), Volume(ts));
      if Outlay(ts) > 0.0 { MarginWithin(Profit(ts), Outlay(ts), threshold, cap); }
    } else {
      NoOutlay();
    }
  }

  lemma NoOutlay()
    ensures Outlay([]) == 0.0
  {
  }

  lemma MarginWithin(profit: real, outlay: real, threshold: real, cap: real)
    requires outlay > 0.0
    ensures threshold <= profit / outlay <= cap <==> threshold * outlay <= profit <= cap * outlay
  {
    var m := profit / outlay;
    assert m * outlay == profit;
    SignOfProduct(threshold - m, outlay);
    SignOfProduct(m - cap, outlay);
    assert (threshold - m) * outlay == threshold * outlay - m * outlay;
    assert (m - cap) * outlay == m * outlay - cap * outlay;
  }
}
