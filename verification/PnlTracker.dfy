/** The tracker object, the receipts recorded through it, and the reconciler that settles
    them; and the agreement between the executor's result and the ledger's. */
module PnlTracker {
  import opened Ladders
  import opened Wrappers
  import opened ConfirmedPnl
  import E = Executor
  import O = OrderTypes

  // What record_execution_receipt is given; generated ids stand for fresh uuids.
  // `metadata` is its strategy entry: absent, or present and perhaps empty.
  datatype Receipt = Receipt(id: string, strategyType: Option<string>, metadata: Option<Option<string>>,
                             buy: FillInput, sell: FillInput, markConfirmed: bool, markSettled: bool, at: real)

  // The entry registration gets: a strategy fills it in only where the metadata has none.
  function EntryOf(r: Receipt): Option<Option<string>> {
    if r.metadata.None? && r.strategyType.Some? && r.strategyType.value != "" then Some(r.strategyType) else r.metadata
  }

  // The receipt pipeline on the ledger value.
  function Booked(l: Ledger, r: Receipt): Ledger {
    var l1 := Register(l, r.id, EntryOf(r));
    var l2 := RecordFill(l1, r.id, BuyLeg, r.buy, r.markConfirmed).0;
    var l3 := RecordFill(l2, r.id, SellLeg, r.sell, r.markConfirmed).0;
    var l4 := if r.markConfirmed then ConfirmLeg(ConfirmLeg(l3, r.id, BuyLeg, r.at), r.id, SellLeg, r.at) else l3;
    if r.markSettled then Settle(l4, r.id, r.at, r.markConfirmed).0 else l4
  }

  class ConfirmedPnLTracker {
    const allowSimulated: bool
    var order: seq<string>
    var executions: map<string, Execution>
    var fillIds: set<string>

    function View(): Ledger
      reads this
    {
      Ledger(order, executions, fillIds)
    }

    constructor (allowSimulated: bool)
      ensures View() == EMPTY && this.allowSimulated == allowSimulated
    {
      this.allowSimulated := allowSimulated;
      order, executions, fillIds := [], map[], {};
    }

    method RegisterExecution(id: string, strategy: Option<Option<string>>)
      modifies this
      ensures View() == Register(old(View()), id, strategy) && id in executions
    {
      if id in executions {
        if strategy.Some? { executions := executions[id := executions[id].(strategyType := strategy.value)]; }
        return;
      }
      order := order + [id];
      executions := executions[id := NewExecution(strategy)];
    }

    method RecordFillOn(id: string, leg: Leg, f: FillInput, autoConfirm: bool) returns (status: Status)
      modifies this
      ensures (View(), status) == RecordFill(old(View()), id, leg, f, autoConfirm)
      ensures (status == UnknownExecution <==> id !in old(executions)) && executions.Keys == old(executions).Keys
    {
      if id !in executions { return UnknownExecution; }
      var size, price, fee := Max(f.size, 0.0), Max(f.price, 0.0), Max(f.fee, 0.0);
      if size <= 0.0 { return Ignored; }
      var fillId := FillId(f.id, f.generated);
      if fillId in fillIds { return Ignored; }
      var e := WithFill(executions[id], leg, Fill(fillId, price, size, fee, f.simulated));
      assert executions[id := e][id := WithConfirmed(e, leg, f.at)] == executions[id := WithConfirmed(e, leg, f.at)];
      executions := executions[id := e];
      fillIds := fillIds + {fillId};
      if autoConfirm { var marked := MarkLegConfirmed(id, leg, f.at); }
      status := Stored;
    }

    method MarkLegConfirmed(id: string, leg: Leg, at: real) returns (r: Marking)
      modifies this
      ensures View() == ConfirmLeg(old(View()), id, leg, at)
      ensures (r == if id in old(executions) then Marked else UnknownId) && executions.Keys == old(executions).Keys
    {
      if id !in executions { return UnknownId; }
      executions := executions[id := WithConfirmed(executions[id], leg, at)];
      r := Marked;
    }

    method MarkSettled(id: string, at: real, requireConfirmed: bool) returns (r: Marking)
      modifies this
      ensures (View(), r) == Settle(old(View()), id, at, requireConfirmed) && executions.Keys == old(executions).Keys
    {
      if id !in executions { return UnknownId; }
      if requireConfirmed && !ConfirmedLegs(executions[id]) { return Unconfirmed; }
      executions := executions[id := executions[id].(settled := Some(at))];
      r := Marked;
    }

    // Every step finds the execution it registered first, so none of them raises.
    method RecordExecutionReceipt(r: Receipt)
      modifies this
      ensures View() == Booked(old(View()), r) && r.id in executions
    {
      hide Register, RecordFill, ConfirmLeg, Settle;
      RegisterExecution(r.id, EntryOf(r));
      var bought := RecordFillOn(r.id, BuyLeg, r.buy, r.markConfirmed);
      var sold := RecordFillOn(r.id, SellLeg, r.sell, r.markConfirmed);
      if r.markConfirmed {
        var buyMarked := MarkLegConfirmed(r.id, BuyLeg, r.at);
        var sellMarked := MarkLegConfirmed(r.id, SellLeg, r.at);
      }
      assert bought != UnknownExecution && sold != UnknownExecution;
      if r.markSettled { var settled := MarkSettled(r.id, r.at, r.markConfirmed); }
    }
  }

  lemma BookedKeepsRegistry(l: Ledger, r: Receipt)
    requires Registry(l)
    ensures Registry(Booked(l, r))
  {
    hide Registry, Register, RecordFill, ConfirmLeg, Settle;
    var l1 := Apply(l, ORegister(r.id, EntryOf(r)));
    ApplyKeepsRegistry(l, ORegister(r.id, EntryOf(r)));
    var l2 := Apply(l1, OFill(r.id, BuyLeg, r.buy, r.markConfirmed));
    ApplyKeepsRegistry(l1, OFill(r.id, BuyLeg, r.buy, r.markConfirmed));
    var l3 := Apply(l2, OFill(r.id, SellLeg, r.sell, r.markConfirmed));
    ApplyKeepsRegistry(l2, OFill(r.id, SellLeg, r.sell, r.markConfirmed));
    var l4 := if r.markConfirmed then Apply(Apply(l3, OConfirm(r.id, BuyLeg, r.at)), OConfirm(r.id, SellLeg, r.at))
      else l3;
    if r.markConfirmed {
      ApplyKeepsRegistry(l3, OConfirm(r.id, BuyLeg, r.at));
      ApplyKeepsRegistry(Apply(l3, OConfirm(r.id, BuyLeg, r.at)), OConfirm(r.id, SellLeg, r.at));
    }
    ApplyKeepsRegistry(l4, OSettle(r.id, r.at, r.markConfirmed));
  }

  // -------------------------------------------------------- booking a known id again

  // A receipt for a known execution writes its strategy entry over the stored one, so the
  // accounting stays as it was exactly when there is no entry or an equal one.
  lemma StrategyKeptIff(l: Ledger, r: Receipt)
    requires r.id in l.executions
    ensures r.id in Booked(l, r).executions
    ensures Booked(l, r).executions[r.id].strategyType == l.executions[r.id].strategyType
       <==> EntryOf(r).None? || EntryOf(r).value == l.executions[r.id].strategyType
  {
    hide FillId;
  }

  // An opportunity without a strategy turns a known complementary execution into a sale of
  // what was bought: two pairs at 40 and 55 cents go from a gain of a dime to one of 30.
  lemma EmptyStrategyFlipsProfit(l: Ledger, r: Receipt)
    requires r.id in l.executions && r.metadata == Some(None)
    requires FillId(r.buy.id, r.buy.generated) in l.fillIds && FillId(r.sell.id, r.sell.generated) in l.fillIds
    requires l.executions[r.id] == Execution(Some("complementary"), [Fill("b", 0.40, 2.0, 0.0, false)],
                                             [Fill("s", 0.55, 2.0, 0.0, false)], None, None, None)
    ensures RealizedPnl(l.executions[r.id]) == 0.10
    ensures r.id in Booked(l, r).executions && RealizedPnl(Booked(l, r).executions[r.id]) == 0.30
  {
    hide Pnl;
    var e, e' := l.executions[r.id], Booked(l, r).executions[r.id];
    assert e'.buyFills == e.buyFills && e'.sellFills == e.sellFills && e'.strategyType == None;
    SingleFill(e.buyFills, 0.40, 2.0, 0.0);
    SingleFill(e.sellFills, 0.55, 2.0, 0.0);
    FlippedPnl();
  }

  lemma FlippedPnl()
    ensures Pnl(true, 2.0, 2.0, 0.40 * 2.0, 0.55 * 2.0, 0.0, 0.0) == 0.10
    ensures Pnl(false, 2.0, 2.0, 0.40 * 2.0, 0.55 * 2.0, 0.0, 0.0) == 0.30
  {
  }

  // ------------------------------------------------ executor and ledger agree

  // The receipt written from an executor's result: both legs at the matched size.
  function ReceiptOf(id: string, strategyType: Option<string>, r: E.Result, buyGenerated: string, sellGenerated: string,
                     simulated: bool, settle: bool, at: real): Receipt {
    Receipt(id, strategyType, Some(strategyType),
            FillInput(r.buyFillId, buyGenerated, r.avgBuy, r.filled, r.buyFees, simulated, at),
            FillInput(r.sellFillId, sellGenerated, r.avgSell, r.filled, r.sellFees, simulated, at),
            true, settle, at)
  }

  predicate FreshIds(l: Ledger, rc: Receipt) {
    var b, s := FillId(rc.buy.id, rc.buy.generated), FillId(rc.sell.id, rc.sell.generated);
    b !in l.fillIds && s !in l.fillIds && b != s
  }

  lemma EqualLegs(e: Execution, n: real, pa: real, pb: real, fa: real, fb: real)
    requires n > 0.0
    requires ConfirmedPnl.TotalSize(e.buyFills) == n && ConfirmedPnl.TotalSize(e.sellFills) == n
    requires TotalNotional(e.buyFills) == pa * n && TotalNotional(e.sellFills) == pb * n
    requires TotalFees(e.buyFills) == fa && TotalFees(e.sellFills) == fb
    ensures RealizedPnl(e) == (if IsComplementary(e) then n - (pa + pb) * n else pb * n - pa * n) - fa - fb
  {
    hide ConfirmedPnl.TotalSize, TotalNotional, TotalFees;
    assert n / n == 1.0;
  }

  // What the booked execution's two legs come to.
  lemma BookedExecution(l: Ledger, rc: Receipt)
    requires rc.id !in l.executions && rc.buy.size > 0.0 && rc.sell.size > 0.0
    ensures rc.id in Booked(l, rc).executions
    ensures var e := Booked(l, rc).executions[rc.id];
            var b := FillId(rc.buy.id, rc.buy.generated);
            var s := FillId(rc.sell.id, rc.sell.generated);
            && e.strategyType == (if EntryOf(rc).Some? then EntryOf(rc).value else None)
            && e.buyFills == (if b in l.fillIds then []
                              else [Fill(b, Max(rc.buy.price, 0.0), rc.buy.size, Max(rc.buy.fee, 0.0),
                                         rc.buy.simulated)])
            && e.sellFills == (if s in l.fillIds || (b !in l.fillIds && s == b) then []
                               else [Fill(s, Max(rc.sell.price, 0.0), rc.sell.size, Max(rc.sell.fee, 0.0),
                                          rc.sell.simulated)])
            && (rc.markConfirmed ==> e.buyConfirmed == e.sellConfirmed == Some(rc.at))
            && (!rc.markConfirmed ==> e.buyConfirmed == e.sellConfirmed == None)
            && e.settled == (if rc.markSettled then Some(rc.at) else None)
  {
  }

  // The ledger realizes exactly the executor's net when both fill ids are new; when one
  // is known or they coincide, that leg is dropped and the receipt realizes nothing.
  lemma ExecutorAndLedgerAgree(l: Ledger, opp: E.Opportunity, buy: O.Outcome, sell: O.Outcome, filled: real, id: string,
                               buyGenerated: string, sellGenerated: string, simulated: bool, settle: bool, at: real)
    requires id !in l.executions && filled > 0.0
    requires buy.avgPrice >= 0.0 && sell.avgPrice >= 0.0 && buy.fees >= 0.0 && sell.fees >= 0.0
    ensures var r := E.ResultOf(E.Complementary(opp), buy, sell, filled);
            var rc := ReceiptOf(id, opp.strategyType, r, buyGenerated, sellGenerated, simulated, settle, at);
            var l' := Booked(l, rc);
            && id in l'.executions
            && RealizedPnl(l'.executions[id]) == (if FreshIds(l, rc) then r.net else 0.0)
            && (RealizedPnl(l'.executions[id]) == r.net <==> FreshIds(l, rc) || r.net == 0.0)
            && l'.executions[id].buyConfirmed == l'.executions[id].sellConfirmed == Some(at)
            && l'.executions[id].settled == (if settle then Some(at) else None)
  {
    hide Booked, RealizedPnl, ConfirmedPnl.TotalSize, TotalNotional, TotalFees;
    var r := E.ResultOf(E.Complementary(opp), buy, sell, filled);
    var rc := ReceiptOf(id, opp.strategyType, r, buyGenerated, sellGenerated, simulated, settle, at);
    BookedExecution(l, rc);
    var e := Booked(l, rc).executions[id];
    if FreshIds(l, rc) {
      SingleFill(e.buyFills, buy.avgPrice, filled, buy.fees);
      SingleFill(e.sellFills, sell.avgPrice, filled, sell.fees);
      NetOf(E.Complementary(opp), buy, sell, filled);
      EqualLegs(e, filled, buy.avgPrice, sell.avgPrice, buy.fees, sell.fees);
    } else {
      OneLegRealizesNothing(e);
    }
  }

  lemma NetOf(complementary: bool, buy: O.Outcome, sell: O.Outcome, filled: real)
    ensures E.ResultOf(complementary, buy, sell, filled).net
         == (if complementary then filled - (buy.avgPrice + sell.avgPrice) * filled
             else sell.avgPrice * filled - buy.avgPrice * filled) - buy.fees - sell.fees
  {
  }

  lemma SingleFill(fs: seq<Fill>, price: real, size: real, fee: real)
    requires |fs| == 1 && fs[0].price == price >= 0.0 && fs[0].size == size > 0.0 && fs[0].fee == fee >= 0.0
    ensures ConfirmedPnl.TotalSize(fs) == size && TotalNotional(fs) == price * size && TotalFees(fs) == fee
  {
    assert fs == [fs[0]];
    TotalsOfOne(fs[0]);
    assert Max(fs[0].price, 0.0) == price && Max(fs[0].size, 0.0) == size;
  }

  lemma OneLegRealizesNothing(e: Execution)
    requires e.buyFills == [] || e.sellFills == []
    ensures RealizedPnl(e) == 0.0
  {
    SizesNonNegative(e.buyFills);
    SizesNonNegative(e.sellFills);
  }

  lemma {:induction false} SizesNonNegative(fs: seq<Fill>)
    ensures ConfirmedPnl.TotalSize(fs) >= 0.0
  {
    if fs != [] { SizesNonNegative(fs[1..]); }
  }

  // A live fill is booked as locked in, a paper one as realized at once.
  lemma ReceiptBucket(l: Ledger, rc: Receipt, allow: bool)
    requires rc.id !in l.executions && rc.buy.size > 0.0 && rc.sell.size > 0.0 && rc.markConfirmed
    requires FreshIds(l, rc) && !rc.buy.simulated && !rc.sell.simulated
    ensures rc.id in Booked(l, rc).executions
    ensures Locked(allow, Booked(l, rc).executions[rc.id]) <==> !rc.markSettled
    ensures Counted(allow, None, Booked(l, rc).executions[rc.id]) <==> rc.markSettled
  {
    hide Booked;
    BookedExecution(l, rc);
  }

  // --------------------------------------------------------- rebuild and settle

  // One row of the capture file.
  datatype Row = Row(id: string, skipped: bool, fromExchange: bool, volume: real, strategyType: Option<string>,
                     buyPrice: real, buyFee: real, buyFillId: Option<string>, sellPrice: real, sellFee: real,
                     sellFillId: Option<string>, buyGenerated: string, sellGenerated: string, at: real)

  predicate Replayed(row: Row) { !row.skipped && row.fromExchange && row.volume > 0.0 }

  function RowReceipt(row: Row): Receipt {
    Receipt(row.id, row.strategyType, None,
            FillInput(row.buyFillId, row.buyGenerated, row.buyPrice, row.volume, row.buyFee, false, row.at),
            FillInput(row.sellFillId, row.sellGenerated, row.sellPrice, row.volume, row.sellFee, false, row.at),
            true, false, row.at)
  }

  function Replay(l: Ledger, rows: seq<Row>): Ledger
    decreases |rows|
  {
    if rows == [] then l
    else Replay(if Replayed(rows[0]) then Booked(l, RowReceipt(rows[0])) else l, rows[1..])
  }

  method TrackerFromCapture(rows: seq<Row>) returns (t: ConfirmedPnLTracker)
    ensures fresh(t) && t.View() == Replay(EMPTY, rows)
  {
    hide Booked;
    t := new ConfirmedPnLTracker(false);
    assert rows[0..] == rows;
    for i := 0 to |rows|
      invariant fresh(t) && Replay(EMPTY, rows) == Replay(t.View(), rows[i..])
    {
      var row := rows[i];
      assert rows[i..][0] == row && rows[i..][1..] == rows[i + 1..];
      if row.skipped || !row.fromExchange { continue; }
      if row.volume <= 0.0 { continue; }
      t.RecordExecutionReceipt(RowReceipt(row));
    }
  }

  lemma {:induction false} ReplayKeepsRegistry(l: Ledger, rows: seq<Row>)
    requires Registry(l)
    ensures Registry(Replay(l, rows))
    decreases |rows|
  {
    hide Registry, Booked;
    if rows != [] {
      if Replayed(rows[0]) { BookedKeepsRegistry(l, RowReceipt(rows[0])); }
      ReplayKeepsRegistry(if Replayed(rows[0]) then Booked(l, RowReceipt(rows[0])) else l, rows[1..]);
    }
  }

  // A tracker rebuilt from any capture starts out exact.
  lemma ReplayedIsExact(rows: seq<Row>)
    ensures Registry(Replay(EMPTY, rows))
  {
    EmptyRegistry();
    ReplayKeepsRegistry(EMPTY, rows);
  }

  // What one row earned: a dollar a pair less both costs, or the sale less the purchase, and
  // both fees; nothing for a row that was skipped, not exchange-confirmed or empty.
  function RowNet(row: Row): real {
    if row.skipped || !row.fromExchange || row.volume <= 0.0 then 0.0
    else if row.strategyType == Some("complementary") then
      row.volume - (row.buyPrice + row.sellPrice) * row.volume - row.buyFee - row.sellFee
    else row.sellPrice * row.volume - row.buyPrice * row.volume - row.buyFee - row.sellFee
  }

  function RowsNet(rows: seq<Row>): real {
    if rows == [] then 0.0 else RowNet(rows[0]) + RowsNet(rows[1..])
  }

  // Each replayed row has an execution and two fills of its own, and no negative price or fee.
  ghost predicate OwnIds(l: Ledger, rows: seq<Row>)
    decreases |rows|
  {
    rows != [] ==>
      && (Replayed(rows[0]) ==> Own(l, rows[0]))
      && OwnIds(if Replayed(rows[0]) then Booked(l, RowReceipt(rows[0])) else l, rows[1..])
  }

  predicate Own(l: Ledger, row: Row) {
    && row.id !in l.executions && FreshIds(l, RowReceipt(row))
    && row.buyPrice >= 0.0 && row.sellPrice >= 0.0 && row.buyFee >= 0.0 && row.sellFee >= 0.0
  }

  // A rebuilt tracker has locked in exactly what the captured rows earned, whatever it does
  // with simulations.
  lemma {:induction false} ReplayLocksIn(allow: bool, l: Ledger, rows: seq<Row>)
    requires Registry(l) && OwnIds(l, rows)
    ensures Registry(Replay(l, rows)) && LockedPnl(allow, Replay(l, rows)) == LockedPnl(allow, l) + RowsNet(rows)
    decreases |rows|
  {
    hide Registry, Booked, FreshIds, RowReceipt, BucketSum, RowNet, Replayed;
    RegistryListsAll(l);
    if rows != [] {
      var row := rows[0];
      RowLocksIn(allow, l, row);
      var l' := if Replayed(row) then Booked(l, RowReceipt(row)) else l;
      RegistryListsAll(l');
      ReplayLocksIn(allow, l', rows[1..]);
    }
    RegistryListsAll(Replay(l, rows));
  }

  lemma RowLocksIn(allow: bool, l: Ledger, row: Row)
    requires Registry(l) && (Replayed(row) ==> Own(l, row))
    ensures var l' := if Replayed(row) then Booked(l, RowReceipt(row)) else l;
            Registry(l') && LockedPnl(allow, l') == LockedPnl(allow, l) + RowNet(row)
  {
    hide Registry, Booked, BucketSum, RealizedPnl, ConfirmedPnl.TotalSize, TotalNotional, TotalFees;
    RegistryListsAll(l);
    if Replayed(row) {
      var rc := RowReceipt(row);
      var l' := Booked(l, rc);
      BookedOnly(l, rc);
      var e := l'.executions[row.id];
      BookedKeepsRegistry(l, rc);
      RegistryListsAll(l');
      BookedExecution(l, rc);
      SingleFill(e.buyFills, row.buyPrice, row.volume, row.buyFee);
      SingleFill(e.sellFills, row.sellPrice, row.volume, row.sellFee);
      EqualLegs(e, row.volume, row.buyPrice, row.sellPrice, row.buyFee, row.sellFee);
      ReceiptBucket(l, rc, allow);
      BucketGrows(allow, LockedIn, l.order, l.executions, row.id, e);
    }
  }

  // A receipt for a new id adds that one execution and touches no other.
  lemma BookedOnly(l: Ledger, rc: Receipt)
    requires rc.id !in l.executions
    ensures rc.id in Booked(l, rc).executions
    ensures var l' := Booked(l, rc);
            l'.order == l.order + [rc.id] && l'.executions == l.executions[rc.id := l'.executions[rc.id]]
  {
    hide FillId, WithFill, WithConfirmed;
  }

  // Does each venue report the execution's market resolved?
  datatype Probe = Probe(kalshi: bool, polymarket: bool)

  predicate Due(e: Execution, p: Probe) { e.settled.None? && ConfirmedLegs(e) && p.kalshi && p.polymarket }

  // Settlement of one execution, by the reconciler.
  function Settlement(l: Ledger, id: string, p: Probe, at: real): Ledger {
    if id in l.executions && Due(l.executions[id], p) then Settle(l, id, at, true).0 else l
  }

  // The whole settlement pass over the registered executions.
  function SettleDue(l: Ledger, ids: seq<string>, probes: map<string, Probe>, at: real): Ledger
    decreases |ids|
  {
    if ids == [] then l
    else SettleDue(if ids[0] in probes then Settlement(l, ids[0], probes[ids[0]], at) else l, ids[1..], probes, at)
  }

  predicate BecameSettled(before: map<string, Execution>, after: map<string, Execution>, id: string) {
    id in before && id in after && before[id].settled.None? && after[id].settled.Some?
  }

  // How many of these executions went from unsettled to settled.
  function NewlySettled(before: map<string, Execution>, after: map<string, Execution>, ids: seq<string>): nat {
    if ids == [] then 0
    else
      var id := ids[|ids| - 1];
      NewlySettled(before, after, ids[..|ids| - 1]) + (if BecameSettled(before, after, id) then 1 else 0)
  }

  lemma {:induction false} NewlySettledSame(before: map<string, Execution>, a: map<string, Execution>,
                                            b: map<string, Execution>, ids: seq<string>)
    requires forall k :: k in ids ==> (k in a <==> k in b) && (k in a ==> a[k] == b[k])
    ensures NewlySettled(before, a, ids) == NewlySettled(before, b, ids)
  {
    if ids != [] { NewlySettledSame(before, a, b, ids[..|ids| - 1]); }
  }

  method ReconcileSettlements(t: ConfirmedPnLTracker, probes: map<string, Probe>, at: real) returns (settled: nat)
    modifies t
    ensures t.View() == SettleDue(old(t.View()), old(t.order), probes, at)
    ensures Distinct(old(t.order)) ==> settled == NewlySettled(old(t.executions), t.executions, old(t.order))
  {
    hide Settlement, NewlySettled, SettleDue;
    settled := 0;
    var ids := t.order;
    NothingNew(t.View(), t.executions, probes, at);
    assert ids[0..] == ids && ids[..0] == [];
    for i := 0 to |ids|
      invariant SettleDue(old(t.View()), ids, probes, at) == SettleDue(t.View(), ids[i..], probes, at)
      invariant Distinct(ids) ==> settled == NewlySettled(old(t.executions), t.executions, ids[..i])
      invariant Distinct(ids) ==> forall j :: i <= j < |ids| ==>
        (ids[j] in t.executions <==> ids[j] in old(t.executions))
        && (ids[j] in t.executions ==> t.executions[ids[j]] == old(t.executions)[ids[j]])
    {
      var id := ids[i];
      ghost var before := t.executions;
      SettleDueStep(t.View(), ids, i, probes, at);
      if id in probes {
        var done := SettleOne(t, id, probes[id], at);
        if done { settled := settled + 1; }
      }
      if Distinct(ids) { NewlySettledSame(old(t.executions), before, t.executions, ids[..i]); }
      NewlySettledStep(old(t.executions), t.executions, ids, i);
    }
    assert ids[|ids|..] == [] && ids[..|ids|] == ids;
    NothingNew(t.View(), t.executions, probes, at);
  }

  lemma NothingNew(l: Ledger, m: map<string, Execution>, probes: map<string, Probe>, at: real)
    ensures SettleDue(l, [], probes, at) == l && NewlySettled(m, m, []) == 0
  {
  }

  lemma SettleDueStep(l: Ledger, ids: seq<string>, i: nat, probes: map<string, Probe>, at: real)
    requires i < |ids|
    ensures SettleDue(l, ids[i..], probes, at)
         == SettleDue(if ids[i] in probes then Settlement(l, ids[i], probes[ids[i]], at) else l,
                      ids[i + 1..], probes, at)
  {
    assert ids[i..][0] == ids[i] && ids[i..][1..] == ids[i + 1..];
  }

  lemma NewlySettledStep(before: map<string, Execution>, after: map<string, Execution>, ids: seq<string>, i: nat)
    requires i < |ids|
    ensures NewlySettled(before, after, ids[..i + 1])
         == NewlySettled(before, after, ids[..i])
            + (if BecameSettled(before, after, ids[i]) then 1 else 0)
  {
    assert ids[..i + 1][..i] == ids[..i];
  }

  method SettleOne(t: ConfirmedPnLTracker, id: string, p: Probe, at: real) returns (done: bool)
    modifies t
    ensures t.View() == Settlement(old(t.View()), id, p, at)
    ensures done <==> id in old(t.executions) && Due(old(t.executions)[id], p)
    ensures t.executions.Keys == old(t.executions).Keys
    ensures forall k :: k in t.executions && k != id ==> t.executions[k] == old(t.executions)[k]
    ensures id in t.executions ==> (done <==> old(t.executions)[id].settled.None? && t.executions[id].settled.Some?)
  {
    if id !in t.executions || t.executions[id].settled.Some? || !ConfirmedLegs(t.executions[id]) { return false; }
    if !p.kalshi || !p.polymarket { return false; }
    var r := t.MarkSettled(id, at, true);
    done := r == Marked;
  }

  // A reconciliation pass moves money between the buckets and creates none: the sum of
  // locked-in and realized profit is what it was.
  lemma {:induction false} ReconcileConserves(allow: bool, l: Ledger, ids: seq<string>, probes: map<string, Probe>,
                                              at: real)
    requires Registry(l)
    ensures var l' := SettleDue(l, ids, probes, at);
            && Registry(l')
            && LockedPnl(allow, l') + RealizedTotal(allow, l') == LockedPnl(allow, l) + RealizedTotal(allow, l)
    decreases |ids|
  {
    hide Registry, BucketSum, Due;
    if ids != [] {
      var l1 := if ids[0] in probes then Settlement(l, ids[0], probes[ids[0]], at) else l;
      if ids[0] in probes { SettlementConserves(allow, l, ids[0], at, true); }
      ReconcileConserves(allow, l1, ids[1..], probes, at);
    }
  }

  // ... and it settles only what both venues resolved, leaving every other execution as it was.
  lemma {:induction false} ReconcileSettlesExactly(l: Ledger, ids: seq<string>, probes: map<string, Probe>, at: real,
                                                   k: string)
    requires k in l.executions
    ensures var l' := SettleDue(l, ids, probes, at);
            && l'.order == l.order && l'.fillIds == l.fillIds && k in l'.executions
            && l'.executions[k] == (if k in ids && k in probes && Due(l.executions[k], probes[k])
                                    then l.executions[k].(settled := Some(at)) else l.executions[k])
    decreases |ids|
  {
    if ids != [] {
      var l1 := if ids[0] in probes then Settlement(l, ids[0], probes[ids[0]], at) else l;
      ReconcileSettlesExactly(l1, ids[1..], probes, at, k);
    }
  }
}
