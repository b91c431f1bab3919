/** The confirmed-profit ledger: executions with deduplicated fills, profit on matched
    volume, and the locked-in and realized buckets. `Ledger` is the tracker's whole state
    as a value; the tracker class updates it in place. */
module ConfirmedPnl {
  import opened Ladders
  import opened Wrappers

  // A stored fill; `simulated` says its source is the simulation.
  datatype Fill = Fill(id: string, price: real, size: real, fee: real, simulated: bool)

  datatype Leg = BuyLeg | SellLeg

  datatype Execution = Execution(strategyType: Option<string>, buyFills: seq<Fill>, sellFills: seq<Fill>,
                                 buyConfirmed: Option<real>, sellConfirmed: Option<real>, settled: Option<real>)

  // -------------------------------------------------------------------- totals

  function NotionalOf(f: Fill): real { Max(f.price, 0.0) * Max(f.size, 0.0) }

  function TotalSize(fs: seq<Fill>): real {
    if fs == [] then 0.0 else Max(fs[0].size, 0.0) + TotalSize(fs[1..])
  }

  function TotalNotional(fs: seq<Fill>): real {
    if fs == [] then 0.0 else NotionalOf(fs[0]) + TotalNotional(fs[1..])
  }

  function TotalFees(fs: seq<Fill>): real {
    if fs == [] then 0.0 else Max(fs[0].fee, 0.0) + TotalFees(fs[1..])
  }

  predicate ConfirmedLegs(e: Execution) { e.buyConfirmed.Some? && e.sellConfirmed.Some? }

  predicate IsComplementary(e: Execution) { e.strategyType == Some("complementary") }

  predicate FromSimulation(fs: seq<Fill>) { exists f :: f in fs && f.simulated }

  predicate Simulated(e: Execution) { FromSimulation(e.buyFills + e.sellFills) }

  // Profit on the matched volume, each leg's notional and fees pro-rated to it.
  function Pnl(complementary: bool, buys: real, sells: real, buyNotional: real, sellNotional: real,
               buyFees: real, sellFees: real): real {
    var matched := Min(buys, sells);
    if matched <= 0.0 then 0.0
    else
      var bn, sn := buyNotional * (matched / buys), sellNotional * (matched / sells);
      var bf, sf := buyFees * (matched / buys), sellFees * (matched / sells);
      if complementary then matched * 1.0 - bn - sn - bf - sf else sn - bn - bf - sf
  }

  function RealizedPnl(e: Execution): real {
    Pnl(IsComplementary(e), TotalSize(e.buyFills), TotalSize(e.sellFills), TotalNotional(e.buyFills),
        TotalNotional(e.sellFills), TotalFees(e.buyFills), TotalFees(e.sellFills))
  }

  // --------------------------------------------- what the profit does not depend on

  lemma {:induction false} TotalsAppend(a: seq<Fill>, b: seq<Fill>)
    ensures TotalSize(a + b) == TotalSize(a) + TotalSize(b)
    ensures TotalNotional(a + b) == TotalNotional(a) + TotalNotional(b)
    ensures TotalFees(a + b) == TotalFees(a) + TotalFees(b)
  {
    hide NotionalOf;
    if a == [] {
      assert a + b == b;
    } else {
      assert (a + b)[1..] == a[1..] + b;
      TotalsAppend(a[1..], b);
    }
  }

  lemma TotalsOfOne(f: Fill)
    ensures TotalSize([f]) == Max(f.size, 0.0)
    ensures TotalNotional([f]) == NotionalOf(f)
    ensures TotalFees([f]) == Max(f.fee, 0.0)
  {
  }

  lemma TotalsTakeOut(fs: seq<Fill>, i: nat)
    requires i < |fs|
    ensures var rest := fs[..i] + fs[i + 1..];
            && TotalSize(fs) == Max(fs[i].size, 0.0) + TotalSize(rest)
            && TotalNotional(fs) == NotionalOf(fs[i]) + TotalNotional(rest)
            && TotalFees(fs) == Max(fs[i].fee, 0.0) + TotalFees(rest)
            && multiset(fs) == multiset{fs[i]} + multiset(rest)
  {
    hide NotionalOf, TotalSize, TotalNotional, TotalFees;
    assert fs == fs[..i] + ([fs[i]] + fs[i + 1..]);
    TotalsAppend(fs[..i], [fs[i]] + fs[i + 1..]);
    TotalsAppend([fs[i]], fs[i + 1..]);
    TotalsAppend(fs[..i], fs[i + 1..]);
    TotalsOfOne(fs[i]);
  }

  lemma {:induction false} TotalsPermute(a: seq<Fill>, b: seq<Fill>)
    requires multiset(a) == multiset(b)
    ensures TotalSize(a) == TotalSize(b) && TotalNotional(a) == TotalNotional(b) && TotalFees(a) == TotalFees(b)
  {
    hide NotionalOf, TotalSize, TotalNotional, TotalFees;
    if a == [] {
      assert |multiset(b)| == 0;
    } else {
      var i := SamePlace(a, b);
      TotalsTakeOut(b, i);
      TotalsTakeOut(a, 0);
      assert a[..0] + a[1..] == a[1..];
      TotalsPermute(a[1..], b[..i] + b[i + 1..]);
    }
  }

  lemma SamePlace(a: seq<Fill>, b: seq<Fill>) returns (i: nat)
    requires multiset(a) == multiset(b) && a != []
    ensures i < |b| && b[i] == a[0]
    ensures multiset(a[1..]) == multiset(b[..i] + b[i + 1..])
  {
    assert a[0] in multiset(b);
    i :| 0 <= i < |b| && b[i] == a[0];
    assert a == [a[0]] + a[1..];
    assert b == b[..i] + [b[i]] + b[i + 1..];
    assert multiset(a[1..]) == multiset(a) - multiset{a[0]};
    assert multiset(b[..i] + b[i + 1..]) == multiset(b) - multiset{b[i]};
  }

  // The order in which fills were recorded never matters.
  lemma PnlIgnoresOrder(e: Execution, buys: seq<Fill>, sells: seq<Fill>)
    requires multiset(buys) == multiset(e.buyFills) && multiset(sells) == multiset(e.sellFills)
    ensures RealizedPnl(e.(buyFills := buys, sellFills := sells)) == RealizedPnl(e)
  {
    hide Pnl;
    TotalsPermute(buys, e.buyFills);
    TotalsPermute(sells, e.sellFills);
  }

  // Two fills at one price that together make up a third.
  ghost predicate Splits(whole: Fill, a: Fill, b: Fill) {
    && a.price == whole.price == b.price
    && a.size >= 0.0 && b.size >= 0.0 && a.size + b.size == whole.size
    && a.fee >= 0.0 && b.fee >= 0.0 && a.fee + b.fee == whole.fee
  }

  lemma TotalsSplit(before: seq<Fill>, after: seq<Fill>, whole: Fill, a: Fill, b: Fill)
    requires Splits(whole, a, b)
    ensures TotalSize(before + [whole] + after) == TotalSize(before + [a, b] + after)
    ensures TotalNotional(before + [whole] + after) == TotalNotional(before + [a, b] + after)
    ensures TotalFees(before + [whole] + after) == TotalFees(before + [a, b] + after)
  {
    hide TotalSize, TotalNotional, TotalFees;
    TotalsAppend(before + [whole], after);
    TotalsAppend(before, [whole]);
    TotalsAppend(before + [a, b], after);
    TotalsAppend(before, [a, b]);
    assert [a, b] == [a] + [b];
    TotalsAppend([a], [b]);
    TotalsOfOne(whole);
    TotalsOfOne(a);
    TotalsOfOne(b);
    assert Max(whole.price, 0.0) * (a.size + b.size)
        == Max(whole.price, 0.0) * a.size + Max(whole.price, 0.0) * b.size;
  }

  // Nor does it matter whether a venue reports one fill or several at the same price.
  lemma PnlIgnoresSplits(e: Execution, before: seq<Fill>, after: seq<Fill>, whole: Fill, a: Fill, b: Fill)
    requires Splits(whole, a, b)
    ensures e.buyFills == before + [whole] + after
            ==> RealizedPnl(e.(buyFills := before + [a, b] + after)) == RealizedPnl(e)
    ensures e.sellFills == before + [whole] + after
            ==> RealizedPnl(e.(sellFills := before + [a, b] + after)) == RealizedPnl(e)
  {
    hide Pnl;
    TotalsSplit(before, after, whole, a, b);
  }

  // What n contracts of an outcome and n of its complement pay when the outcome is w.
  function PairPays(n: real, w: bool): real { (if w then n else 0.0) + (if w then 0.0 else n) }

  lemma PnlOfPair(n: real, buyNotional: real, sellNotional: real, buyFees: real, sellFees: real)
    requires n > 0.0
    ensures Pnl(true, n, n, buyNotional, sellNotional, buyFees, sellFees)
        == n - buyNotional - sellNotional - buyFees - sellFees
  {
    var whole := n / n;
    assert whole == 1.0;
  }

  // A balanced complementary pair realizes payout less cost and fees in both worlds.
  lemma ComplementaryPaysEitherWay(e: Execution, w: bool)
    requires IsComplementary(e) && TotalSize(e.buyFills) == TotalSize(e.sellFills) > 0.0
    ensures RealizedPnl(e)
         == PairPays(TotalSize(e.buyFills), w) - TotalNotional(e.buyFills) - TotalNotional(e.sellFills)
            - TotalFees(e.buyFills) - TotalFees(e.sellFills)
  {
    hide Pnl;
    PnlOfPair(TotalSize(e.buyFills), TotalNotional(e.buyFills), TotalNotional(e.sellFills),
              TotalFees(e.buyFills), TotalFees(e.sellFills));
  }

  // The profit of legs of any sizes is that of one contract, at the average cost or proceeds
  // of each leg after its fees, times the matched size; what one leg has more counts nothing.
  lemma PnlIsPerContract(e: Execution)
    ensures var (b, s) := (TotalSize(e.buyFills), TotalSize(e.sellFills));
            if b <= 0.0 || s <= 0.0 then RealizedPnl(e) == 0.0
            else
              var cost := (TotalNotional(e.buyFills) + TotalFees(e.buyFills)) / b;
              var other := if e.strategyType == Some("complementary")
                then 1.0 - (TotalNotional(e.sellFills) + TotalFees(e.sellFills)) / s
                else (TotalNotional(e.sellFills) - TotalFees(e.sellFills)) / s;
              RealizedPnl(e) == (if b <= s then b else s) * (other - cost)
  {
    hide TotalSize, TotalNotional, TotalFees;
    var b, s := TotalSize(e.buyFills), TotalSize(e.sellFills);
    if b > 0.0 && s > 0.0 {
      ProRata(TotalNotional(e.buyFills), TotalFees(e.buyFills), Min(b, s), b);
      ProRata(TotalNotional(e.sellFills), TotalFees(e.sellFills), Min(b, s), s);
      ProRataNet(TotalNotional(e.sellFills), TotalFees(e.sellFills), Min(b, s), s);
    }
  }

  lemma ProRata(notional: real, fees: real, matched: real, size: real)
    requires size > 0.0
    ensures notional * (matched / size) + fees * (matched / size) == matched * ((notional + fees) / size)
  {
    var part, unit := matched / size, (notional + fees) / size;
    assert part * size == matched && unit * size == notional + fees;
    assert matched * unit == part * size * unit == part * (unit * size);
  }

  lemma ProRataNet(notional: real, fees: real, matched: real, size: real)
    requires size > 0.0
    ensures notional * (matched / size) - fees * (matched / size) == matched * ((notional - fees) / size)
  {
    ProRata(notional, -fees, matched, size);
  }

  // -------------------------------------------------------------------- the ledger

  // Executions in the order they were registered, and the ids of every stored fill.
  datatype Ledger = Ledger(order: seq<string>, executions: map<string, Execution>, fillIds: set<string>)

  const EMPTY := Ledger([], map[], {})

  function Ids(fs: seq<Fill>): multiset<string> {
    if fs == [] then multiset{} else multiset{fs[0].id} + Ids(fs[1..])
  }

  function IdsOf(e: Execution): multiset<string> { Ids(e.buyFills) + Ids(e.sellFills) }

  function AllIds(order: seq<string>, m: map<string, Execution>): multiset<string>
    requires forall k :: k in order ==> k in m
  {
    if order == [] then multiset{} else IdsOf(m[order[0]]) + AllIds(order[1..], m)
  }

  ghost predicate Distinct(order: seq<string>) { forall i, j :: 0 <= i < j < |order| ==> order[i] != order[j] }

  // The registry is exact: every key listed once, and the id set holds exactly the ids of
  // the stored fills, each of them stored once.
  ghost predicate Registry(l: Ledger) {
    && Distinct(l.order)
    && (forall k :: k in l.order <==> k in l.executions)
    && AllIds(l.order, l.executions) == multiset(l.fillIds)
  }

  // --------------------------------------------------------------- the operations

  // An unknown execution raises in the source; nothing has changed by then.
  datatype Status = Stored | Ignored | UnknownExecution

  datatype Marking = Marked | Unconfirmed | UnknownId

  function NewExecution(strategy: Option<Option<string>>): Execution {
    Execution(if strategy.Some? then strategy.value else None, [], [], None, None, None)
  }

  // `strategy` is the strategy entry of the metadata, when the metadata carries one.
  function Register(l: Ledger, id: string, strategy: Option<Option<string>>): Ledger {
    if id in l.executions then
      if strategy.Some? then l.(executions := l.executions[id := l.executions[id].(strategyType := strategy.value)])
      else l
    else
      l.(order := l.order + [id],
         executions := l.executions[id := NewExecution(strategy)])
  }

  function WithFill(e: Execution, leg: Leg, f: Fill): Execution {
    match leg
    case BuyLeg => e.(buyFills := e.buyFills + [f])
    case SellLeg => e.(sellFills := e.sellFills + [f])
  }

  function WithConfirmed(e: Execution, leg: Leg, at: real): Execution {
    match leg
    case BuyLeg => e.(buyConfirmed := Some(at))
    case SellLeg => e.(sellConfirmed := Some(at))
  }

  // A fill without an id of its own gets the generated one.
  function FillId(given: Option<string>, generated: string): string {
    if given.Some? && given.value != "" then given.value else generated
  }

  datatype FillInput = FillInput(id: Option<string>, generated: string, price: real, size: real, fee: real,
                                 simulated: bool, at: real)

  function RecordFill(l: Ledger, id: string, leg: Leg, f: FillInput, autoConfirm: bool): (Ledger, Status) {
    if id !in l.executions then (l, UnknownExecution)
    else if f.size <= 0.0 || FillId(f.id, f.generated) in l.fillIds then (l, Ignored)
    else
      var stored := Fill(FillId(f.id, f.generated), Max(f.price, 0.0), f.size, Max(f.fee, 0.0), f.simulated);
      var e := WithFill(l.executions[id], leg, stored);
      (l.(executions := l.executions[id := if autoConfirm then WithConfirmed(e, leg, f.at) else e],
          fillIds := l.fillIds + {stored.id}), Stored)
  }

  function ConfirmLeg(l: Ledger, id: string, leg: Leg, at: real): Ledger {
    if id in l.executions then l.(executions := l.executions[id := WithConfirmed(l.executions[id], leg, at)]) else l
  }

  function Settle(l: Ledger, id: string, at: real, requireConfirmed: bool): (Ledger, Marking) {
    if id !in l.executions then (l, UnknownId)
    else if requireConfirmed && !ConfirmedLegs(l.executions[id]) then (l, Unconfirmed)
    else (l.(executions := l.executions[id := l.executions[id].(settled := Some(at))]), Marked)
  }

  // A reconciler's overwrite of one stored fill: fee and source, never its id, price or size.
  function Overwrite(fs: seq<Fill>, i: nat, fee: Option<real>): seq<Fill> {
    if i >= |fs| then fs
    else fs[i := fs[i].(fee := if fee.Some? then fee.value else fs[i].fee, simulated := false)]
  }

  function Reconcile(l: Ledger, id: string, leg: Leg, i: nat, fee: Option<real>): Ledger {
    if id !in l.executions then l
    else
      var e := l.executions[id];
      l.(executions := l.executions[id :=
        match leg
        case BuyLeg => e.(buyFills := Overwrite(e.buyFills, i, fee))
        case SellLeg => e.(sellFills := Overwrite(e.sellFills, i, fee))])
  }

  datatype Op =
    | ORegister(id: string, strategy: Option<Option<string>>)
    | OFill(id: string, leg: Leg, f: FillInput, autoConfirm: bool)
    | OConfirm(id: string, leg: Leg, at: real)
    | OSettle(id: string, at: real, requireConfirmed: bool)
    | OReconcile(id: string, leg: Leg, i: nat, fee: Option<real>)

  function Apply(l: Ledger, op: Op): Ledger {
    match op
    case ORegister(id, strategy) => Register(l, id, strategy)
    case OFill(id, leg, f, autoConfirm) => RecordFill(l, id, leg, f, autoConfirm).0
    case OConfirm(id, leg, at) => ConfirmLeg(l, id, leg, at)
    case OSettle(id, at, requireConfirmed) => Settle(l, id, at, requireConfirmed).0
    case OReconcile(id, leg, i, fee) => Reconcile(l, id, leg, i, fee)
  }

  function Run(l: Ledger, ops: seq<Op>): Ledger
    decreases |ops|
  {
    if ops == [] then l else Run(Apply(l, ops[0]), ops[1..])
  }

  // Which fills are stored, and as what: on a known execution, of a positive size and under
  // an id not seen before, the venue's own or else the generated one; nothing else changes.
  lemma RecordFillIs(l: Ledger, id: string, leg: Leg, f: FillInput, autoConfirm: bool)
    ensures var (l', status) := RecordFill(l, id, leg, f, autoConfirm);
            var own := if f.id == None || f.id == Some("") then f.generated else f.id.value;
            && (status == UnknownExecution <==> id !in l.executions)
            && (status == Stored <==> id in l.executions && f.size > 0.0 && own !in l.fillIds)
            && (status != Stored ==> l' == l)
            && (status == Stored ==>
                  && l'.order == l.order && l'.fillIds == l.fillIds + {own}
                  && l'.executions.Keys == l.executions.Keys
                  && (forall k :: k in l.executions && k != id ==> l'.executions[k] == l.executions[k])
                  && var (e, e') := (l.executions[id], l'.executions[id]);
                     var stored := [Fill(own, if f.price >= 0.0 then f.price else 0.0, f.size,
                                         if f.fee >= 0.0 then f.fee else 0.0, f.simulated)];
                     && e'.strategyType == e.strategyType && e'.settled == e.settled
                     && e'.buyFills == e.buyFills + (if leg == BuyLeg then stored else [])
                     && e'.sellFills == e.sellFills + (if leg == SellLeg then stored else [])
                     && e'.buyConfirmed == (if leg == BuyLeg && autoConfirm then Some(f.at) else e.buyConfirmed)
                     && e'.sellConfirmed == (if leg == SellLeg && autoConfirm then Some(f.at) else e.sellConfirmed))
  {
  }

  // A settlement that asks for confirmation needs both legs confirmed.
  lemma SettleIs(l: Ledger, id: string, at: real, requireConfirmed: bool)
    ensures var (l', r) := Settle(l, id, at, requireConfirmed);
            && (r == UnknownId <==> id !in l.executions)
            && (r == Marked <==> id in l.executions
                                 && (requireConfirmed ==> l.executions[id].buyConfirmed.Some?
                                                          && l.executions[id].sellConfirmed.Some?))
            && l' == if r == Marked then l.(executions := l.executions[id := l.executions[id].(settled := Some(at))])
                     else l
  {
  }

  // A reconciled fill takes the venue's fee, when there is one, and is no longer simulated.
  lemma ReconcileIs(fs: seq<Fill>, i: nat, fee: Option<real>)
    ensures var fs' := Overwrite(fs, i, fee);
            && |fs'| == |fs|
            && (forall j :: 0 <= j < |fs| && j != i ==> fs'[j] == fs[j])
            && (i < |fs| ==> fs'[i] == Fill(fs[i].id, fs[i].price, fs[i].size,
                                            match fee case Some(f) => f case None => fs[i].fee, false))
  {
  }

  // ------------------------------------------------------- the registry invariant

  lemma {:induction false} AllIdsUpdate(order: seq<string>, m: map<string, Execution>, k: string, e: Execution)
    requires Distinct(order) && (forall x :: x in order ==> x in m) && k in m
    ensures forall x :: x in order ==> x in m[k := e]
    ensures k !in order ==> AllIds(order, m[k := e]) == AllIds(order, m)
    ensures k in order ==> AllIds(order, m[k := e]) + IdsOf(m[k]) == AllIds(order, m) + IdsOf(e)
  {
    hide IdsOf;
    if order != [] {
      var head, rest := m[order[0]], AllIds(order[1..], m);
      var m' := m[k := e];
      AllIdsUpdate(order[1..], m, k, e);
      if order[0] == k {
        assert k !in order[1..];
        assert (IdsOf(e) + rest) + IdsOf(m[k]) == (IdsOf(m[k]) + rest) + IdsOf(e);
      } else if k in order {
        assert (IdsOf(head) + AllIds(order[1..], m')) + IdsOf(m[k])
          == IdsOf(head) + (AllIds(order[1..], m') + IdsOf(m[k]));
        assert IdsOf(head) + (rest + IdsOf(e)) == (IdsOf(head) + rest) + IdsOf(e);
      }
    }
  }

  lemma {:induction false} AllIdsGrow(order: seq<string>, m: map<string, Execution>, k: string, e: Execution)
    requires (forall x :: x in order ==> x in m) && k !in order
    ensures AllIds(order + [k], m[k := e]) == AllIds(order, m) + IdsOf(e)
  {
    hide IdsOf;
    if order == [] {
      assert order + [k] == [k];
      assert AllIds([k], m[k := e]) == IdsOf(e) + AllIds([], m[k := e]);
    } else {
      assert (order + [k])[1..] == order[1..] + [k];
      AllIdsGrow(order[1..], m, k, e);
    }
  }

  lemma {:induction false} IdsAppend(fs: seq<Fill>, f: Fill)
    ensures Ids(fs + [f]) == Ids(fs) + multiset{f.id}
  {
    if fs == [] {
      assert fs + [f] == [f];
    } else {
      assert (fs + [f])[1..] == fs[1..] + [f];
      IdsAppend(fs[1..], f);
    }
  }

  lemma {:induction false} IdsOverwrite(fs: seq<Fill>, i: nat, fee: Option<real>)
    ensures Ids(Overwrite(fs, i, fee)) == Ids(fs)
  {
    if i < |fs| {
      var after := Overwrite(fs, i, fee);
      if i == 0 {
        assert after[1..] == fs[1..];
      } else {
        assert after[1..] == Overwrite(fs[1..], i - 1, fee);
        IdsOverwrite(fs[1..], i - 1, fee);
      }
    }
  }

  // Replacing an execution by one with the same fill ids keeps the registry.
  lemma RegistryKept(l: Ledger, k: string, e: Execution)
    requires Registry(l) && k in l.executions && IdsOf(e) == IdsOf(l.executions[k])
    ensures Registry(l.(executions := l.executions[k := e]))
  {
    hide IdsOf, AllIds;
    AllIdsUpdate(l.order, l.executions, k, e);
    assert IdsOf(e) + multiset{} == IdsOf(e);
    Cancel(AllIds(l.order, l.executions[k := e]), AllIds(l.order, l.executions), IdsOf(e), multiset{});
  }

  lemma RegistryGrows(l: Ledger, k: string, e: Execution, id: string)
    requires Registry(l) && k in l.executions && id !in l.fillIds
    requires IdsOf(e) == IdsOf(l.executions[k]) + multiset{id}
    ensures Registry(l.(executions := l.executions[k := e], fillIds := l.fillIds + {id}))
  {
    hide IdsOf, AllIds;
    AllIdsUpdate(l.order, l.executions, k, e);
    assert multiset(l.fillIds + {id}) == multiset(l.fillIds) + multiset{id};
    Cancel(AllIds(l.order, l.executions[k := e]), AllIds(l.order, l.executions), IdsOf(l.executions[k]), multiset{id});
  }

  lemma Cancel(a: multiset<string>, b: multiset<string>, c: multiset<string>, d: multiset<string>)
    requires a + c == b + (c + d)
    ensures a == b + d
  {
    forall x ensures a[x] == (b + d)[x] {
      assert (a + c)[x] == (b + (c + d))[x];
    }
  }

  lemma ApplyKeepsRegistry(l: Ledger, op: Op)
    requires Registry(l)
    ensures Registry(Apply(l, op))
  {
    hide AllIds, Registry, Ids;
    match op
    case ORegister(id, strategy) =>
      if id in l.executions {
        if strategy.Some? { RegistryKept(l, id, l.executions[id].(strategyType := strategy.value)); }
      } else {
        RegistryAdds(l, id, NewExecution(strategy));
      }
    case OFill(id, leg, f, autoConfirm) =>
      var (l', status) := RecordFill(l, id, leg, f, autoConfirm);
      if status == Stored {
        var stored := Fill(FillId(f.id, f.generated), Max(f.price, 0.0), f.size, Max(f.fee, 0.0), f.simulated);
        IdsAppend(l.executions[id].buyFills, stored);
        IdsAppend(l.executions[id].sellFills, stored);
        RegistryGrows(l, id, l'.executions[id], stored.id);
      }
    case OConfirm(id, leg, at) =>
      if id in l.executions { RegistryKept(l, id, WithConfirmed(l.executions[id], leg, at)); }
    case OSettle(id, at, requireConfirmed) =>
      if id in l.executions { RegistryKept(l, id, l.executions[id].(settled := Some(at))); }
    case OReconcile(id, leg, i, fee) =>
      if id in l.executions {
        IdsOverwrite(l.executions[id].buyFills, i, fee);
        IdsOverwrite(l.executions[id].sellFills, i, fee);
        RegistryKept(l, id, Reconcile(l, id, leg, i, fee).executions[id]);
      }
  }

  lemma RegistryAdds(l: Ledger, id: string, e: Execution)
    requires Registry(l) && id !in l.executions && e.buyFills == e.sellFills == []
    ensures Registry(l.(order := l.order + [id], executions := l.executions[id := e]))
  {
    hide AllIds;
    AllIdsGrow(l.order, l.executions, id, e);
  }

  lemma {:induction false} RunKeepsRegistry(l: Ledger, ops: seq<Op>)
    requires Registry(l)
    ensures Registry(Run(l, ops))
    decreases |ops|
  {
    hide Registry, Apply;
    if ops != [] {
      ApplyKeepsRegistry(l, ops[0]);
      RunKeepsRegistry(Apply(l, ops[0]), ops[1..]);
    }
  }

  lemma EmptyRegistry()
    ensures Registry(EMPTY)
  {
  }

  // The tracker's id set, in every state its operations can reach.
  lemma RegistryAlwaysExact(ops: seq<Op>)
    ensures Registry(Run(EMPTY, ops))
  {
    EmptyRegistry();
    RunKeepsRegistry(EMPTY, ops);
  }

  // Recording a known id again changes nothing at all, on any execution and either leg.
  lemma RerecordingIsIdle(ops: seq<Op>, first: Op, between: seq<Op>, again: Op)
    requires first.OFill? && again.OFill?
    requires FillId(first.f.id, first.f.generated) == FillId(again.f.id, again.f.generated)
    requires var l := Run(EMPTY, ops); RecordFill(l, first.id, first.leg, first.f, first.autoConfirm).1 == Stored
    ensures var l := Run(Apply(Run(EMPTY, ops), first), between); Apply(l, again) == l
  {
    hide WithFill, WithConfirmed;
    IdsOnlyGrow(Apply(Run(EMPTY, ops), first), between);
  }

  lemma {:induction false} IdsOnlyGrow(l: Ledger, ops: seq<Op>)
    ensures l.fillIds <= Run(l, ops).fillIds
    decreases |ops|
  {
    if ops != [] { IdsOnlyGrow(Apply(l, ops[0]), ops[1..]); }
  }

  // --------------------------------------------------------- locked in and realized

  // Whether an execution's profit is counted at all under the simulation setting.
  predicate Admissible(allowSimulated: bool, e: Execution) { ConfirmedLegs(e) && (allowSimulated || !Simulated(e)) }

  predicate Locked(allowSimulated: bool, e: Execution) { e.settled.None? && Admissible(allowSimulated, e) }

  predicate Counted(allowSimulated: bool, since: Option<real>, e: Execution) {
    e.settled.Some? && Admissible(allowSimulated, e) && (since.Some? ==> e.settled.value >= since.value)
  }

  datatype Bucket = LockedIn | Realized(since: Option<real>)

  predicate InBucket(allow: bool, b: Bucket, e: Execution) {
    match b
    case LockedIn => Locked(allow, e)
    case Realized(since) => Counted(allow, since, e)
  }

  function Share(allow: bool, b: Bucket, e: Execution): real { if InBucket(allow, b, e) then RealizedPnl(e) else 0.0 }

  function BucketSum(allow: bool, b: Bucket, order: seq<string>, m: map<string, Execution>): real
    requires forall k :: k in order ==> k in m
  {
    if order == [] then 0.0 else Share(allow, b, m[order[0]]) + BucketSum(allow, b, order[1..], m)
  }

  function LockedPnl(allow: bool, l: Ledger): real
    requires forall k :: k in l.order ==> k in l.executions
  {
    BucketSum(allow, LockedIn, l.order, l.executions)
  }

  function RealizedTotal(allow: bool, l: Ledger): real
    requires forall k :: k in l.order ==> k in l.executions
  {
    BucketSum(allow, Realized(None), l.order, l.executions)
  }

  // What each bucket holds: executions with both legs confirmed and, unless simulations
  // count, no simulated fill; the settled ones, from a time on if one is given, or the others.
  lemma BucketsHold(allow: bool, since: Option<real>, e: Execution)
    ensures var whole := && e.buyConfirmed.Some? && e.sellConfirmed.Some?
                         && (!allow ==> forall f :: f in e.buyFills || f in e.sellFills ==> !f.simulated);
            && (InBucket(allow, LockedIn, e) <==> whole && e.settled.None?)
            && (InBucket(allow, Realized(since), e) <==>
                  whole && e.settled.Some? && !(since.Some? && e.settled.value < since.value))
  {
    assert forall f :: f in e.buyFills + e.sellFills <==> f in e.buyFills || f in e.sellFills;
  }

  // No execution is ever in both buckets.
  lemma BucketsDisjoint(allow: bool, since: Option<real>, e: Execution)
    ensures !(InBucket(allow, LockedIn, e) && InBucket(allow, Realized(since), e))
  {
  }

  lemma {:induction false} BucketUpdate(allow: bool, b: Bucket, order: seq<string>, m: map<string, Execution>,
                                        k: string, e: Execution)
    requires Distinct(order) && (forall x :: x in order ==> x in m) && k in m
    ensures forall x :: x in order ==> x in m[k := e]
    ensures BucketSum(allow, b, order, m[k := e])
         == BucketSum(allow, b, order, m) + (if k in order then Share(allow, b, e) - Share(allow, b, m[k]) else 0.0)
  {
    hide Share;
    if order != [] {
      BucketUpdate(allow, b, order[1..], m, k, e);
      if order[0] == k { assert k !in order[1..]; }
    }
  }

  lemma {:induction false} BucketGrows(allow: bool, b: Bucket, order: seq<string>, m: map<string, Execution>,
                                       k: string, e: Execution)
    requires (forall x :: x in order ==> x in m) && k !in order
    ensures BucketSum(allow, b, order + [k], m[k := e]) == BucketSum(allow, b, order, m) + Share(allow, b, e)
  {
    hide Share;
    if order == [] {
      assert order + [k] == [k];
      assert BucketSum(allow, b, [k], m[k := e]) == Share(allow, b, e) + BucketSum(allow, b, [], m[k := e]);
    } else {
      assert (order + [k])[1..] == order[1..] + [k];
      BucketGrows(allow, b, order[1..], m, k, e);
    }
  }

  // Settling moves exactly the execution's profit from locked-in to realized when it was
  // locked in, moves nothing otherwise, and so never changes the sum of the two.
  lemma SettlementConserves(allow: bool, l: Ledger, id: string, at: real, requireConfirmed: bool)
    requires Registry(l)
    ensures var l' := Settle(l, id, at, requireConfirmed).0;
            && Registry(l')
            && var locked := id in l.executions && Locked(allow, l.executions[id]);
               var moved := if locked then RealizedPnl(l.executions[id]) else 0.0;
               && LockedPnl(allow, l') == LockedPnl(allow, l) - moved
               && RealizedTotal(allow, l') == RealizedTotal(allow, l) + moved
  {
    hide RealizedPnl, Simulated, Registry;
    ApplyKeepsRegistry(l, OSettle(id, at, requireConfirmed));
    RegistryListsAll(l);
    if Settle(l, id, at, requireConfirmed).1 == Marked {
      var e := l.executions[id];
      var e' := e.(settled := Some(at));
      SettledSame(e, at);
      BucketUpdate(allow, LockedIn, l.order, l.executions, id, e');
      BucketUpdate(allow, Realized(None), l.order, l.executions, id, e');
    }
  }

  lemma SettledSame(e: Execution, at: real)
    ensures RealizedPnl(e.(settled := Some(at))) == RealizedPnl(e)
    ensures Simulated(e.(settled := Some(at))) == Simulated(e)
  {
  }

  lemma RegistryListsAll(l: Ledger)
    requires Registry(l)
    ensures Distinct(l.order) && forall k :: k in l.order <==> k in l.executions
  {
  }

  // Any number of settlements, of any executions, in any order: no money appears or goes.
  lemma {:induction false} SettlingConserves(allow: bool, l: Ledger, ops: seq<Op>)
    requires Registry(l) && forall op :: op in ops ==> op.OSettle?
    ensures Registry(Run(l, ops))
    ensures LockedPnl(allow, Run(l, ops)) + RealizedTotal(allow, Run(l, ops))
         == LockedPnl(allow, l) + RealizedTotal(allow, l)
    decreases |ops|
  {
    hide Registry, Apply, BucketSum;
    RunKeepsRegistry(l, ops);
    if ops != [] {
      assert ops[0] in ops;
      SettleStep(allow, l, ops[0]);
      SettlingConserves(allow, Apply(l, ops[0]), ops[1..]);
    }
  }

  lemma SettleStep(allow: bool, l: Ledger, op: Op)
    requires Registry(l) && op.OSettle?
    ensures Registry(Apply(l, op))
    ensures LockedPnl(allow, Apply(l, op)) + RealizedTotal(allow, Apply(l, op))
         == LockedPnl(allow, l) + RealizedTotal(allow, l)
  {
    hide BucketSum;
    SettlementConserves(allow, l, op.id, op.at, op.requireConfirmed);
  }
}
