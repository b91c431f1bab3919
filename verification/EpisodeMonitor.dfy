/** The monitor's loop state: the open episodes, the rotation offset, the ledger and the
    running totals, updated by sweeps and by ticks between them. */
module EpisodeMonitors {
  import opened Wrappers
  import opened Monitor

  // One pass of the loop: a full sweep, or a drain of the live feed between sweeps.
  datatype Input =
    | Sweep(us: seq<WatchPair>, results: seq<Priced>, now: real)
    | Tick(results: seq<Priced>, now: real)

  // --------------------------------------------------------------- what a key observes

  function SweepObs(key: string, live: map<string, Priced>, deferred: set<string>, now: real): Obs {
    if key in live then Seen(live[key], now) else Missed(deferred, now)
  }

  // A tick applies every accepted result in turn, and closes nothing.
  function TickObs(key: string, g: Gate, rs: seq<Priced>, now: real): seq<Obs> {
    if rs == [] then []
    else
      var r := rs[|rs| - 1];
      TickObs(key, g, rs[..|rs| - 1], now) + (if Accepts(g, r) && KeyOf(r) == key then [Seen(r, now)] else [])
  }

  function ObsOf(key: string, g: Gate, off: nat, input: Input): seq<Obs> {
    match input
    case Sweep(us, rs, now) => [SweepObs(key, Live(g, rs), Deferred(us, off), now)]
    case Tick(rs, now) => TickObs(key, g, rs, now)
  }

  function OffsetOver(ins: seq<Input>): nat {
    if ins == [] then 0
    else
      var before := OffsetOver(ins[..|ins| - 1]);
      match ins[|ins| - 1]
      case Sweep(us, _, _) => NextOffset(us, before)
      case Tick(_, _) => before
  }

  function History(key: string, g: Gate, ins: seq<Input>): seq<Obs> {
    if ins == [] then []
    else
      var init := ins[..|ins| - 1];
      History(key, g, init) + ObsOf(key, g, OffsetOver(init), ins[|ins| - 1])
  }

  // ------------------------------------------------------------------ vanished gaps

  // Sweeps over one watch list that never find the key.
  predicate AllMiss(key: string, g: Gate, us: seq<WatchPair>, ins: seq<Input>) {
    forall x :: 0 <= x < |ins| ==> ins[x].Sweep? && ins[x].us == us && key !in Live(g, ins[x].results)
  }

  function MissObs(us: seq<WatchPair>, off: nat, ins: seq<Input>): seq<Obs> {
    seq(|ins|, x requires 0 <= x < |ins| => Missed(Deferred(us, OffsetAfter(us, off, x)), ins[x].now))
  }

  lemma MissObsLength(us: seq<WatchPair>, off: nat, ins: seq<Input>)
    ensures |MissObs(us, off, ins)| == |ins|
  {
  }

  lemma MissObsStep(key: string, g: Gate, us: seq<WatchPair>, off: nat, ins: seq<Input>)
    requires ins != [] && AllMiss(key, g, us, ins)
    ensures MissObs(us, off, ins)
        == MissObs(us, off, ins[..|ins| - 1]) + ObsOf(key, g, OffsetAfter(us, off, |ins| - 1), ins[|ins| - 1])
  {
    hide Live, Deferred, OffsetAfter, AllMiss;
    var n := |ins| - 1;
    LastMisses(key, g, us, ins);
    assert MissObs(us, off, ins)[..n] == MissObs(us, off, ins[..n]);
    assert MissObs(us, off, ins)[n] == Missed(Deferred(us, OffsetAfter(us, off, n)), ins[n].now);
  }

  lemma LastMisses(key: string, g: Gate, us: seq<WatchPair>, ins: seq<Input>)
    requires ins != [] && AllMiss(key, g, us, ins)
    ensures var last := ins[|ins| - 1]; last.Sweep? && last.us == us && key !in Live(g, last.results)
  {
    hide Live;
  }

  lemma {:induction false} MissHistory(key: string, g: Gate, us: seq<WatchPair>, before: seq<Input>, ins: seq<Input>)
    requires AllMiss(key, g, us, ins)
    ensures OffsetOver(before + ins) == OffsetAfter(us, OffsetOver(before), |ins|)
    ensures History(key, g, before + ins) == History(key, g, before) + MissObs(us, OffsetOver(before), ins)
  {
    hide Live, Deferred, NextOffset, MissObs, ObsOf;
    var off := OffsetOver(before);
    if ins == [] {
      assert before + ins == before;
      assert MissObs(us, off, ins) == [] by { MissObsLength(us, off, ins); }
    } else {
      var init, last := ins[..|ins| - 1], ins[|ins| - 1];
      MissHistory(key, g, us, before, init);
      assert (before + ins)[..|before + ins| - 1] == before + init;
      assert (before + ins)[|before + ins| - 1] == last;
      MissObsStep(key, g, us, off, ins);
    }
  }

  lemma {:induction false} MissesClose(key: string, k: Track, h: seq<Obs>)
    requires forall x :: 0 <= x < |h| ==> h[x].Missed?
    ensures var t := ObserveAll(key, k, h);
            var held := k.open.Some? && forall x :: 0 <= x < |h| ==> !Ends(h[x], k.open.value.ktk);
            t.open == if held then k.open else None
  {
    if h != [] { MissesClose(key, k, h[..|h| - 1]); }
  }

  // A gap that is no longer found is closed within one round of sweeps, rate-limited or not.
  lemma VanishedGapCloses(key: string, g: Gate, us: seq<WatchPair>, before: seq<Input>, ins: seq<Input>)
    requires AllMiss(key, g, us, ins)
    requires |ins| >= (if |us| > QUOTA then Round(|us|) else 1)
    ensures ObserveAll(key, QUIET, History(key, g, before + ins)).open.None?
  {
    hide History, AllMiss, ObserveAll, OffsetOver, OffsetAfter, Selected, Ends;
    var missed := MissObs(us, OffsetOver(before), ins);
    MissHistory(key, g, us, before, ins);
    ObserveConcat(key, QUIET, History(key, g, before), missed);
    var k := ObserveAll(key, QUIET, History(key, g, before));
    MissesClose(key, k, missed);
    if k.open.Some? {
      var x := SweepThatPrices(us, OffsetOver(before), k.open.value.ktk, |ins|);
      EndsUnlessDeferred(missed[x], k.open.value.ktk);
    }
  }

  lemma EndsUnlessDeferred(o: Obs, ktk: string)
    ensures Ends(o, ktk) <==> o.Missed? && ktk !in o.deferred
  {
  }

  lemma SweepThatPrices(us: seq<WatchPair>, off: nat, ktk: string, sweeps: nat) returns (x: nat)
    requires sweeps >= (if |us| > QUOTA then Round(|us|) else 1)
    ensures x < sweeps && ktk !in Deferred(us, OffsetAfter(us, off, x))
  {
    hide NextOffset, Deferred, PricedAt;
    x := 0;
    if j :| 0 <= j < |us| && us[j].ktk == ktk {
      RoundPricesAll(us, off, j);
      x :| 0 <= x < Round(|us|) && PricedAt(|us|, OffsetAfter(us, off, x), j);
    }
    DeferredIff(us, OffsetAfter(us, off, x), ktk);
  }

  // ------------------------------------------------------------ pairs that share a ticker

  // The episode of a pair that was not priced outlives a sweep without it exactly when no
  // pair that was priced has its ticker.
  lemma UnpricedSurvivesIff(us: seq<WatchPair>, off: nat, j: nat, key: string, k: Track, now: real)
    requires j < |us| && !PricedAt(|us|, off, j)
    requires k.open.Some? && k.open.value.ktk == us[j].ktk
    ensures Observe(key, k, Missed(Deferred(us, off), now)).open.Some?
       <==> forall i :: 0 <= i < |us| && PricedAt(|us|, off, i) ==> us[i].ktk != us[j].ktk
  {
    hide PricedAt, Deferred;
    DeferredIff(us, off, us[j].ktk);
  }

  // Sixteen pairs, the first and the last of one ticker: the last is not priced, and its
  // episode is closed all the same.
  lemma TwinTickerCloses(us: seq<WatchPair>, key: string, k: Track, now: real)
    requires |us| == 16 && us[0].ktk == us[15].ktk && k.open.Some? && k.open.value.ktk == us[15].ktk
    ensures !PricedAt(|us|, 0, 15) && Observe(key, k, Missed(Deferred(us, 0), now)).open.None?
  {
    hide Deferred;
    forall i: nat | i < QUOTA ensures !Lands(16, 0, i, 15) { WrapIs(i, 0, i, 16); }
    WrapIs(0, 0, 0, 16);
    assert Lands(16, 0, 0, 0);
    assert PricedAt(|us|, 0, 0) && !PricedAt(|us|, 0, 15);
    UnpricedSurvivesIff(us, 0, 15, key, k, now);
  }

  // -------------------------------------------------------------- results that share a key

  // What a key would observe if every accepted result were noted, not the last of a sweep.
  function AllObsOf(key: string, g: Gate, off: nat, input: Input): seq<Obs> {
    match input
    case Sweep(us, rs, now) =>
      if key in Live(g, rs) then TickObs(key, g, rs, now) else [Missed(Deferred(us, off), now)]
    case Tick(rs, now) => TickObs(key, g, rs, now)
  }

  function FullHistory(key: string, g: Gate, ins: seq<Input>): seq<Obs> {
    if ins == [] then []
    else
      var init := ins[..|ins| - 1];
      FullHistory(key, g, init) + AllObsOf(key, g, OffsetOver(init), ins[|ins| - 1])
  }

  // No sweep accepts two results for the key.
  predicate OneEach(key: string, g: Gate, ins: seq<Input>) {
    forall x :: 0 <= x < |ins| && ins[x].Sweep? ==> |AcceptedFor(key, g, ins[x].results)| <= 1
  }

  lemma {:induction false} TickObsAreAccepted(key: string, g: Gate, rs: seq<Priced>, now: real)
    ensures |TickObs(key, g, rs, now)| == |AcceptedFor(key, g, rs)|
    ensures forall x :: 0 <= x < |AcceptedFor(key, g, rs)| ==>
              TickObs(key, g, rs, now)[x] == Seen(AcceptedFor(key, g, rs)[x], now)
  {
    if rs != [] { TickObsAreAccepted(key, g, rs[..|rs| - 1], now); }
  }

  lemma ObsAlikeIff(key: string, g: Gate, off: nat, input: Input)
    ensures |ObsOf(key, g, off, input)| <= |AllObsOf(key, g, off, input)|
    ensures ObsOf(key, g, off, input) == AllObsOf(key, g, off, input)
       <==> (input.Sweep? ==> |AcceptedFor(key, g, input.results)| <= 1)
    ensures input.Sweep? && |AcceptedFor(key, g, input.results)| > 1 ==>
              |ObsOf(key, g, off, input)| < |AllObsOf(key, g, off, input)|
  {
    hide Live, Deferred, TickObs, AcceptedFor;
    if input.Sweep? {
      LiveIsLast(key, g, input.results);
      TickObsAreAccepted(key, g, input.results, input.now);
    }
  }

  // The loop notes everything it accepts for a key exactly when no sweep accepts two.
  lemma {:induction false} AllNotedIff(key: string, g: Gate, ins: seq<Input>)
    ensures |History(key, g, ins)| <= |FullHistory(key, g, ins)|
    ensures |History(key, g, ins)| == |FullHistory(key, g, ins)| <==> OneEach(key, g, ins)
    ensures OneEach(key, g, ins) <==> History(key, g, ins) == FullHistory(key, g, ins)
  {
    hide ObsOf, AllObsOf, AcceptedFor, OffsetOver;
    if ins != [] {
      var init, last := ins[..|ins| - 1], ins[|ins| - 1];
      AllNotedIff(key, g, init);
      ObsAlikeIff(key, g, OffsetOver(init), last);
      OneEachSnoc(key, g, ins);
    }
  }

  lemma OneEachSnoc(key: string, g: Gate, ins: seq<Input>)
    requires ins != []
    ensures var last := ins[|ins| - 1];
            OneEach(key, g, ins) <==>
              OneEach(key, g, ins[..|ins| - 1]) && (last.Sweep? ==> |AcceptedFor(key, g, last.results)| <= 1)
  {
    hide AcceptedFor;
    var n := |ins| - 1;
    assert forall x :: 0 <= x < n ==> ins[..n][x] == ins[x];
  }

  // Two results of one key in one sweep, the better one first: the row carries the worse.
  lemma OverwrittenPeak(g: Gate, us: seq<WatchPair>, best: Priced, last: Priced, now: real)
    requires Accepts(g, best) && Accepts(g, last) && KeyOf(best) == KeyOf(last) && best.net > last.net
    ensures var key, ins := KeyOf(best), [Sweep(us, [best, last], now)];
            var rows := Flushed(key, ObserveAll(key, QUIET, History(key, g, ins)), now);
            && |rows| == 1 && rows[0].peakNet == last.net < best.net
            && best in AcceptedFor(key, g, [best, last])
  {
    hide Deferred;
    var key, rs := KeyOf(best), [best, last];
    assert rs[..1] == [best] && [best][..0] == [];
    assert AcceptedFor(key, g, [best]) == [best] && AcceptedFor(key, g, rs) == [best] + [last];
    LiveIsLast(key, g, rs);
    var ins := [Sweep(us, rs, now)];
    assert ins[..0] == [] && History(key, g, ins) == [] + [Seen(last, now)];
    SeenOnce(key, last, now);
  }

  lemma SeenOnce(key: string, r: Priced, now: real)
    ensures Flushed(key, ObserveAll(key, QUIET, [Seen(r, now)]), now) == [RowOf(key, Opened(r, now), now, true)]
  {
    assert [Seen(r, now)][..0] == [];
  }

  // ------------------------------------------------------------------ ledger and totals

  function RowsFor(ledger: seq<Row>, key: string): seq<Row> {
    if ledger == [] then []
    else RowsFor(ledger[..|ledger| - 1], key) + (if ledger[|ledger| - 1].key == key then [ledger[|ledger| - 1]] else [])
  }

  function OpensFor(opens: seq<Priced>, key: string): seq<Priced> {
    if opens == [] then []
    else OpensFor(opens[..|opens| - 1], key) + (if KeyOf(opens[|opens| - 1]) == key then [opens[|opens| - 1]] else [])
  }

  function SumPeaks(ledger: seq<Row>): real {
    if ledger == [] then 0.0 else SumPeaks(ledger[..|ledger| - 1]) + ledger[|ledger| - 1].peakNet
  }

  lemma Snoc<T>(s: seq<T>, x: T)
    ensures (s + [x])[..|s + [x]| - 1] == s && (s + [x])[|s + [x]| - 1] == x
  {
  }

  class EpisodeMonitor {
    const gate: Gate
    var openEps: map<string, Episode>
    var usOff: nat
    var ledger: seq<Row>
    var opens: seq<Priced>          // the OPEN lines, each also offered to the executor
    var closed: nat
    var captured: real

    ghost function View(key: string): Track
      reads this
    {
      Track(if key in openEps then Some(openEps[key]) else None, RowsFor(ledger, key), OpensFor(opens, key))
    }

    // Every opening is still open or is one row; the total is the sum of the rows.
    ghost predicate Valid()
      reads this
    {
      closed == |ledger| && captured == SumPeaks(ledger) && |opens| == |ledger| + |openEps|
    }

    constructor (gate: Gate)
      ensures Valid() && this.gate == gate && usOff == 0 && forall key :: View(key) == QUIET
    {
      this.gate := gate;
      openEps, usOff, ledger, opens, closed, captured := map[], 0, [], [], 0, 0.0;
    }

    // A priced gap opens its key's episode or raises its peaks.
    method Note(r: Priced, now: real)
      requires Valid()
      modifies this`openEps, this`opens
      ensures Valid()
      ensures forall key :: View(key) == if key == KeyOf(r) then Observe(key, old(View(key)), Seen(r, now))
                                         else old(View(key))
    {
      var key := KeyOf(r);
      if key in openEps {
        openEps := openEps[key := Updated(openEps[key], r)];
      } else {
        Snoc(opens, r);
        openEps, opens := openEps[key := Opened(r, now)], opens + [r];
      }
    }

    // Takes one episode that a sweep priced and did not find out of the open ones.
    method CloseOne(key: string, ghost deferred: set<string>, now: real)
      requires Valid() && key in openEps && openEps[key].ktk !in deferred
      modifies this`openEps, this`ledger, this`closed, this`captured
      ensures Valid() && openEps == old(openEps) - {key}
      ensures forall k :: View(k) == if k == key then Observe(k, old(View(k)), Missed(deferred, now)) else old(View(k))
    {
      var row := RowOf(key, openEps[key], now, false);
      Snoc(ledger, row);
      CardinalityMinus(openEps, key);
      captured, closed := captured + openEps[key].peakNet, closed + 1;
      ledger, openEps := ledger + [row], openEps - {key};
    }

    method OpenAll(live: map<string, Priced>, now: real)
      requires Valid() && forall k :: k in live ==> KeyOf(live[k]) == k
      modifies this`openEps, this`opens
      ensures Valid()
      ensures forall k :: View(k) == if k in live then Observe(k, old(View(k)), Seen(live[k], now)) else old(View(k))
    {
      hide Observe;
      var todo := live.Keys;
      while todo != {}
        invariant todo <= live.Keys && Valid()
        invariant forall k :: View(k) == if k in live && k !in todo then Observe(k, old(View(k)), Seen(live[k], now))
                                         else old(View(k))
        decreases |todo|
      {
        var key :| key in todo;
        Note(live[key], now);
        todo := todo - {key};
      }
    }

    method CloseGone(live: set<string>, deferred: set<string>, now: real)
      requires Valid()
      modifies this`openEps, this`ledger, this`closed, this`captured
      ensures Valid()
      ensures forall k :: View(k) == if k in live then old(View(k)) else Observe(k, old(View(k)), Missed(deferred, now))
    {
      hide Observe, RowsFor, OpensFor, SumPeaks;
      var gone := set k | k in openEps && k !in live && openEps[k].ktk !in deferred;
      ghost var all := gone;
      while gone != {}
        invariant gone <= all && Valid()
        invariant forall k :: k in gone ==> k in openEps && openEps[k] == old(openEps[k])
        invariant forall k :: View(k) == if k !in all || k in gone then old(View(k))
                                         else Observe(k, old(View(k)), Missed(deferred, now))
        decreases |gone|
      {
        var key :| key in gone;
        CloseOne(key, deferred, now);
        gone := gone - {key};
      }
      forall k | k !in live && k !in all ensures View(k) == Observe(k, old(View(k)), Missed(deferred, now)) {
        NotClosed(k, old(View(k)), deferred, now);
      }
    }

    method HandleSweep(us: seq<WatchPair>, results: seq<Priced>, now: real)
      requires Valid()
      modifies this
      ensures Valid() && usOff == NextOffset(us, old(usOff))
      ensures forall k ::
                View(k) == Observe(k, old(View(k)), SweepObs(k, Live(gate, results), Deferred(us, old(usOff)), now))
    {
      hide Observe, Deferred;
      var deferred := Deferred(us, usOff);
      var live: map<string, Priced> := map[];
      assert results[..0] == [];
      for i := 0 to |results|
        invariant live == Live(gate, results[..i])
      {
        assert results[..i + 1][..i] == results[..i];
        if Accepts(gate, results[i]) { live := live[KeyOf(results[i]) := results[i]]; }
      }
      assert results[..|results|] == results;
      LiveKeyed(gate, results);
      usOff := NextOffset(us, usOff);
      assert forall k :: View(k) == old(View(k));
      OpenAll(live, now);
      CloseGone(live.Keys, deferred, now);
    }

    method HandleTick(results: seq<Priced>, now: real)
      requires Valid()
      modifies this`openEps, this`opens
      ensures Valid()
      ensures forall k :: View(k) == ObserveAll(k, old(View(k)), TickObs(k, gate, results, now))
    {
      hide Observe, ObserveAll, TickObs, RowsFor, OpensFor, SumPeaks;
      forall k ensures old(View(k)) == ObserveAll(k, old(View(k)), TickObs(k, gate, [], now)) {
        EmptyTick(k, old(View(k)), gate, now);
      }
      assert results[..0] == [];
      for i := 0 to |results|
        invariant Valid()
        invariant forall k :: View(k) == ObserveAll(k, old(View(k)), TickObs(k, gate, results[..i], now))
      {
        if Accepts(gate, results[i]) { Note(results[i], now); }
        forall k ensures View(k) == ObserveAll(k, old(View(k)), TickObs(k, gate, results[..i + 1], now)) {
          TickStep(k, old(View(k)), gate, results, i, now);
        }
      }
      assert results[..|results|] == results;
    }

    // Writes out what is still open; the headline is the sum of every row's peak.
    method Flush(now: real) returns (headline: real)
      requires Valid()
      modifies this`ledger
      ensures forall k :: RowsFor(ledger, k) == Flushed(k, old(View(k)), now)
      ensures headline == SumPeaks(ledger) && |ledger| == |opens|
    {
      var todo := openEps.Keys;
      var stillOpen := 0.0;
      while todo != {}
        invariant todo <= openEps.Keys && |ledger| + |todo| == |opens|
        invariant captured + stillOpen == SumPeaks(ledger)
        invariant forall k :: RowsFor(ledger, k) == if k in todo then old(RowsFor(ledger, k))
                                                    else Flushed(k, old(View(k)), now)
        decreases |todo|
      {
        var key :| key in todo;
        var row := RowOf(key, openEps[key], now, true);
        Snoc(ledger, row);
        ledger, stillOpen := ledger + [row], stillOpen + openEps[key].peakNet;
        todo := todo - {key};
      }
      headline := captured + stillOpen;
    }
  }

  lemma NotClosed(key: string, k: Track, deferred: set<string>, now: real)
    requires k.open.None? || k.open.value.ktk in deferred
    ensures Observe(key, k, Missed(deferred, now)) == k
  {
  }

  lemma EmptyTick(key: string, k: Track, g: Gate, now: real)
    ensures ObserveAll(key, k, TickObs(key, g, [], now)) == k
  {
  }

  lemma TickStep(key: string, k: Track, g: Gate, rs: seq<Priced>, i: nat, now: real)
    requires i < |rs|
    ensures var before := ObserveAll(key, k, TickObs(key, g, rs[..i], now));
            ObserveAll(key, k, TickObs(key, g, rs[..i + 1], now))
            == if Accepts(g, rs[i]) && KeyOf(rs[i]) == key then Observe(key, before, Seen(rs[i], now)) else before
  {
    hide Observe, ObserveAll, Accepts, KeyOf;
    var r := rs[i];
    assert rs[..i + 1] == rs[..i] + [r] && rs[..i + 1][..i] == rs[..i];
    if !(Accepts(g, r) && KeyOf(r) == key) {
      assert TickObs(key, g, rs[..i + 1], now) == TickObs(key, g, rs[..i], now);
    }
    ObserveSnoc(key, k, TickObs(key, g, rs[..i], now), Seen(rs[i], now));
  }

  lemma ObserveSnoc(key: string, k: Track, h: seq<Obs>, o: Obs)
    ensures ObserveAll(key, k, h + [o]) == Observe(key, ObserveAll(key, k, h), o)
  {
    hide Observe;
    Snoc(h, o);
  }

  lemma CardinalityMinus(m: map<string, Episode>, key: string)
    requires key in m
    ensures |m - {key}| == |m| - 1
  {
    assert (m - {key}).Keys == m.Keys - {key};
  }

  // A whole run from a fresh start: for every key, the ledger's rows are the episodes of
  // what the run observed of that key.
  method Run(gate: Gate, ins: seq<Input>, flushAt: real) returns (m: EpisodeMonitor, headline: real)
    ensures forall key :: Accounts(RowsFor(m.ledger, key), key, History(key, gate, ins), flushAt)
    ensures headline == SumPeaks(m.ledger) && |m.ledger| == |m.opens|
  {
    hide ObserveAll, Observe, Accounts;
    m := new EpisodeMonitor(gate);
    assert ins[..0] == [];
    forall key ensures ObserveAll(key, QUIET, []) == QUIET { NothingObserved(key); }
    for i := 0 to |ins|
      invariant m.Valid() && m.gate == gate && fresh(m) && m.usOff == OffsetOver(ins[..i])
      invariant forall key :: m.View(key) == ObserveAll(key, QUIET, History(key, gate, ins[..i]))
    {
      assert ins[..i + 1][..i] == ins[..i];
      match ins[i] {
        case Sweep(us, rs, now) => m.HandleSweep(us, rs, now);
        case Tick(rs, now) => m.HandleTick(rs, now);
      }
      forall key ensures m.View(key) == ObserveAll(key, QUIET, History(key, gate, ins[..i + 1])) {
        ObserveConcat(key, QUIET, History(key, gate, ins[..i]), ObsOf(key, gate, OffsetOver(ins[..i]), ins[i]));
        ObserveOne(key);
      }
    }
    assert ins[..|ins|] == ins;
    headline := m.Flush(flushAt);
    forall key ensures Accounts(RowsFor(m.ledger, key), key, History(key, gate, ins), flushAt) {
      RowsAreEpisodes(key, QUIET, History(key, gate, ins), flushAt);
    }
  }

  lemma NothingObserved(key: string)
    ensures ObserveAll(key, QUIET, []) == QUIET
  {
  }

  lemma ObserveOne(key: string)
    ensures forall k: Track, o: Obs :: ObserveAll(key, k, [o]) == Observe(key, k, o)
  {
    forall k: Track, o: Obs ensures ObserveAll(key, k, [o]) == Observe(key, k, o) {
      assert [o][..0] == [];
      assert ObserveAll(key, k, []) == k;
    }
  }
}
