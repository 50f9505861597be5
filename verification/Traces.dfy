/** Where the evidence of a run comes from: each record in it was in the store at the moment of one
    of the run's own reads, and each condition the validator checks held at such a moment. */
module Traces {
  import opened Text
  import opened Domain
  import opened TransferStore
  import opened EvidenceAssembly
  import opened Validation
  import opened Pipeline

  /** The store as event `k` of the run finds it. */
  function StoreAt(digest: Digester, init: Store, events: seq<Event>, k: nat): Store
    requires k <= |events|
  {
    AdvanceAll(digest, init, events[..k]).store
  }

  ghost predicate OrderRead(digest: Digester, init: Store, events: seq<Event>, o: Order) {
    exists k :: 0 <= k < |events| && events[k].Load?
      && events[k].id in StoreAt(digest, init, events, k).orders && StoreAt(digest, init, events, k).orders[events[k].id] == o
  }

  ghost predicate PaymentRead(digest: Digester, init: Store, events: seq<Event>, id: string, v: Payment) {
    exists k :: 0 <= k < |events| && events[k].ReadPayment?
      && id in StoreAt(digest, init, events, k).payments && StoreAt(digest, init, events, k).payments[id] == v
  }

  ghost predicate FulfilmentRead(digest: Digester, init: Store, events: seq<Event>, id: string, f: Fulfilment) {
    exists k :: 0 <= k < |events| && events[k].ReadFulfilment?
      && id in StoreAt(digest, init, events, k).fulfilments && StoreAt(digest, init, events, k).fulfilments[id] == f
  }

  ghost predicate StockRead(digest: Digester, init: Store, events: seq<Event>, x: Inventory) {
    exists k :: 0 <= k < |events| && events[k].ReadInventory? && x in StoreAt(digest, init, events, k).inventory.Values
  }

  ghost predicate AllStockRead(digest: Digester, init: Store, events: seq<Event>, xs: seq<Inventory>) {
    forall x | x in xs :: StockRead(digest, init, events, x)
  }

  ghost predicate PartRead(digest: Digester, init: Store, events: seq<Event>, o: Order, p: Part) {
    && p.order == o
    && (p.kind.PaymentKind? && p.payment.Some? ==> PaymentRead(digest, init, events, o.paymentID, p.payment.value))
    && (p.kind.FulfilmentKind? && p.fulfilment.Some? ==> FulfilmentRead(digest, init, events, o.id, p.fulfilment.value))
    && (p.kind.InventoryKind? ==> AllStockRead(digest, init, events, p.inventory))
  }

  ghost predicate PartsRead(digest: Digester, init: Store, events: seq<Event>, o: Order, parts: seq<Part>) {
    forall p | p in parts :: PartRead(digest, init, events, o, p)
  }

  ghost predicate Traced(digest: Digester, init: Store, events: seq<Event>, run: Run) {
    && (run.order.None? ==> run.parts == [] && run.stock == [])
    && (run.order.Some? ==> OrderRead(digest, init, events, run.order.value) && PartsRead(digest, init, events, run.order.value, run.parts))
    && AllStockRead(digest, init, events, run.stock)
    && (run.evidence.Some? ==> run.order.Some? && Assemble(run.parts) == Ok(run.evidence.value))
  }

  // ---------- later events change nothing in what was read ----------

  lemma StoreAtEarlier(digest: Digester, init: Store, events: seq<Event>, e: Event)
    ensures forall k | 0 <= k <= |events| :: StoreAt(digest, init, events + [e], k) == StoreAt(digest, init, events, k)
  {
    forall k | 0 <= k <= |events| ensures StoreAt(digest, init, events + [e], k) == StoreAt(digest, init, events, k) {
      assert (events + [e])[..k] == events[..k];
    }
  }

  lemma OrderStaysRead(digest: Digester, init: Store, events: seq<Event>, e: Event, o: Order)
    requires OrderRead(digest, init, events, o)
    ensures OrderRead(digest, init, events + [e], o)
  {
    StoreAtEarlier(digest, init, events, e);
    var k :| 0 <= k < |events| && events[k].Load?
      && events[k].id in StoreAt(digest, init, events, k).orders && StoreAt(digest, init, events, k).orders[events[k].id] == o;
    assert (events + [e])[k] == events[k];
    hide StoreAt;
  }

  lemma PaymentStaysRead(digest: Digester, init: Store, events: seq<Event>, e: Event, id: string, v: Payment)
    requires PaymentRead(digest, init, events, id, v)
    ensures PaymentRead(digest, init, events + [e], id, v)
  {
    StoreAtEarlier(digest, init, events, e);
    var k :| 0 <= k < |events| && events[k].ReadPayment?
      && id in StoreAt(digest, init, events, k).payments && StoreAt(digest, init, events, k).payments[id] == v;
    assert (events + [e])[k] == events[k];
    hide StoreAt;
  }

  lemma FulfilmentStaysRead(digest: Digester, init: Store, events: seq<Event>, e: Event, id: string, f: Fulfilment)
    requires FulfilmentRead(digest, init, events, id, f)
    ensures FulfilmentRead(digest, init, events + [e], id, f)
  {
    StoreAtEarlier(digest, init, events, e);
    var k :| 0 <= k < |events| && events[k].ReadFulfilment?
      && id in StoreAt(digest, init, events, k).fulfilments && StoreAt(digest, init, events, k).fulfilments[id] == f;
    assert (events + [e])[k] == events[k];
    hide StoreAt;
  }

  lemma StockStaysRead(digest: Digester, init: Store, events: seq<Event>, e: Event, x: Inventory)
    requires StockRead(digest, init, events, x)
    ensures StockRead(digest, init, events + [e], x)
  {
    StoreAtEarlier(digest, init, events, e);
    var k :| 0 <= k < |events| && events[k].ReadInventory? && x in StoreAt(digest, init, events, k).inventory.Values;
    assert (events + [e])[k] == events[k];
    hide StoreAt;
  }

  lemma AllStockStaysRead(digest: Digester, init: Store, events: seq<Event>, e: Event, xs: seq<Inventory>)
    requires AllStockRead(digest, init, events, xs)
    ensures AllStockRead(digest, init, events + [e], xs)
  {
    hide StockRead;
    forall x | x in xs ensures StockRead(digest, init, events + [e], x) { StockStaysRead(digest, init, events, e, x); }
  }

  lemma PartStaysRead(digest: Digester, init: Store, events: seq<Event>, e: Event, o: Order, p: Part)
    requires PartRead(digest, init, events, o, p)
    ensures PartRead(digest, init, events + [e], o, p)
  {
    hide PaymentRead, FulfilmentRead, AllStockRead;
    if p.kind.PaymentKind? && p.payment.Some? { PaymentStaysRead(digest, init, events, e, o.paymentID, p.payment.value); }
    if p.kind.FulfilmentKind? && p.fulfilment.Some? { FulfilmentStaysRead(digest, init, events, e, o.id, p.fulfilment.value); }
    if p.kind.InventoryKind? { AllStockStaysRead(digest, init, events, e, p.inventory); }
  }

  lemma StaysTraced(digest: Digester, init: Store, events: seq<Event>, e: Event, run: Run)
    requires Traced(digest, init, events, run)
    ensures Traced(digest, init, events + [e], run)
  {
    hide OrderRead, PartRead, AllStockRead, Assemble;
    if run.order.Some? {
      OrderStaysRead(digest, init, events, e, run.order.value);
      forall p | p in run.parts ensures PartRead(digest, init, events + [e], run.order.value, p) {
        PartStaysRead(digest, init, events, e, run.order.value, p);
      }
    }
    AllStockStaysRead(digest, init, events, e, run.stock);
  }

  // ---------- a read is traced to its moment ----------

  lemma LastStore(digest: Digester, init: Store, events: seq<Event>, e: Event)
    ensures StoreAt(digest, init, events + [e], |events|) == AdvanceAll(digest, init, events).store
    ensures (events + [e])[|events|] == e
  {
    assert (events + [e])[..|events|] == events;
  }

  lemma StockReadNow(digest: Digester, init: Store, events: seq<Event>, cancelled: bool, o: Order, values: seq<Inventory>, warehouse: string)
    requires o.items != [] && AllStockRead(digest, init, events + [ReadInventory(cancelled)], values)
    ensures var r := ReadStock(View(AdvanceAll(digest, init, events).store, cancelled), o, values, warehouse);
            r.Ok? ==> AllStockRead(digest, init, events + [ReadInventory(cancelled)], r.value)
  {
    var all := events + [ReadInventory(cancelled)];
    LastStore(digest, init, events, ReadInventory(cancelled));
    var s := AdvanceAll(digest, init, events).store;
    var r := ReadStock(View(s, cancelled), o, values, warehouse);
    hide AdvanceAll, StoreAt, IsBlank;
    if r.Ok? && r.value != values {
      var k := InventoryKey(o.items[0].sku, warehouse);
      assert r.value == values + [s.inventory[k]];
      assert all[|events|].ReadInventory? && s.inventory[k] in StoreAt(digest, init, all, |events|).inventory.Values;
      assert StockRead(digest, init, all, s.inventory[k]);
    }
    hide StockRead;
  }

  lemma ArrivalTraced(digest: Digester, init: Store, events: seq<Event>, run: Run, part: Result<Part>)
    requires Traced(digest, init, events, run) && run.order.Some? && run.evidence.None?
    requires part.Ok? ==> PartRead(digest, init, events, run.order.value, part.value)
    ensures Traced(digest, init, events, Arrive(run, part))
  {
    hide OrderRead, PartRead, AllStockRead, Assemble;
  }

  lemma LoadTraced(digest: Digester, init: Store, events: seq<Event>, run: Run, cancelled: bool, id: string)
    requires Traced(digest, init, events + [Load(cancelled, id)], run)
    ensures Traced(digest, init, events + [Load(cancelled, id)], AdvanceRun(AdvanceAll(digest, init, events).store, run, Load(cancelled, id)))
  {
    var all, s := events + [Load(cancelled, id)], AdvanceAll(digest, init, events).store;
    LastStore(digest, init, events, Load(cancelled, id));
    hide AdvanceAll, StoreAt, IsBlank, PartRead, AllStockRead, Assemble;
    if id in s.orders {
      assert all[|events|].Load? && id in StoreAt(digest, init, all, |events|).orders;
      assert OrderRead(digest, init, all, s.orders[id]);
    }
    hide OrderRead;
  }

  lemma CheckTraced(digest: Digester, init: Store, events: seq<Event>, run: Run, e: Event)
    requires Traced(digest, init, events + [e], run) && (e.ReadPayment? || e.ReadFulfilment? || e.AskShipping?)
    ensures Traced(digest, init, events + [e], AdvanceRun(AdvanceAll(digest, init, events).store, run, e))
  {
    var all, s := events + [e], AdvanceAll(digest, init, events).store;
    LastStore(digest, init, events, e);
    hide AdvanceAll, StoreAt, IsBlank, KindsOf, Traced;
    assert all[|events|] == e && StoreAt(digest, init, all, |events|) == s;
    match e
    case ReadPayment(c) =>
      if Checking(run, PaymentKind) { ArrivalTraced(digest, init, all, run, CheckPayment(View(s, c), run.order.value)); }
    case ReadFulfilment(c) =>
      if Checking(run, FulfilmentKind) { ArrivalTraced(digest, init, all, run, CheckFulfilment(View(s, c), run.order.value)); }
    case AskShipping(status, estimate) =>
      if Checking(run, ShippingKind) { ArrivalTraced(digest, init, all, run, CheckShipping(run.order.value, status, estimate)); }
    case _ =>
  }

  lemma StockTraced(digest: Digester, init: Store, events: seq<Event>, run: Run, cancelled: bool)
    requires Traced(digest, init, events + [ReadInventory(cancelled)], run)
    ensures var e := ReadInventory(cancelled);
            Traced(digest, init, events + [e], AdvanceRun(AdvanceAll(digest, init, events).store, run, e))
  {
    var e := ReadInventory(cancelled);
    var all, s := events + [e], AdvanceAll(digest, init, events).store;
    hide AdvanceAll, KindsOf, ReadStock, AllStockRead, OrderRead, PartsRead, Assemble;
    if Checking(run, InventoryKind) && run.stockRead < 2 && run.order.value.items != [] {
      var o := run.order.value;
      StockReadNow(digest, init, events, cancelled, o, run.stock, Warehouses(o)[run.stockRead]);
      var r := ReadStock(View(s, cancelled), o, run.stock, Warehouses(o)[run.stockRead]);
      if r.Ok? && run.stockRead == 1 {
        var read := run.(stock := r.value, stockRead := 2);
        assert Traced(digest, init, all, read);
        ArrivalTraced(digest, init, all, read, Ok(InventoryPart(o, r.value)));
      }
    }
  }

  lemma StageTraced(digest: Digester, init: Store, events: seq<Event>, s: Store, run: Run, e: Event)
    requires Traced(digest, init, events, run) && (e.OpenBarrier? || e.Recommend? || e.PrepareApproval?)
    ensures Traced(digest, init, events, AdvanceRun(s, run, e))
  {
    hide OrderRead, PartsRead, AllStockRead, Assemble, Reason;
  }

  /** Whatever a run holds was read at some moment of the run. */
  lemma {:induction false} RunIsTraced(digest: Digester, init: Store, events: seq<Event>)
    ensures Traced(digest, init, events, AdvanceAll(digest, init, events).run)
  {
    if events != [] {
      var before, e := events[..|events| - 1], events[|events| - 1];
      var w := AdvanceAll(digest, init, before);
      RunIsTraced(digest, init, before);
      assert before + [e] == events;
      hide Traced, AdvanceRun;
      StaysTraced(digest, init, before, e, w.run);
      match e
      case Load(c, id) => LoadTraced(digest, init, before, w.run, c, id);
      case ReadInventory(c) => StockTraced(digest, init, before, w.run, c);
      case ReadPayment(_) => CheckTraced(digest, init, before, w.run, e);
      case ReadFulfilment(_) => CheckTraced(digest, init, before, w.run, e);
      case AskShipping(_, _) => CheckTraced(digest, init, before, w.run, e);
      case Others(_) =>
      case _ => StageTraced(digest, init, events, w.store, w.run, e);
    }
  }

  lemma EvidenceFromParts(digest: Digester, init: Store, events: seq<Event>, o: Order, parts: seq<Part>)
    requires PartsRead(digest, init, events, o, parts) && Assemble(parts).Ok?
    ensures var e := Assemble(parts).value;
            && e.order == o
            && PaymentRead(digest, init, events, o.paymentID, e.payment) && FulfilmentRead(digest, init, events, o.id, e.fulfilment)
            && AllStockRead(digest, init, events, e.inventory)
  {
    assert forall p | p in parts :: PartRead(digest, init, events, o, p) && p.order == o;
    AssembledOrder(parts, o);
    hide Assemble, PaymentRead, FulfilmentRead, StockRead, SortBy;
    var payment := AssembledShows(parts, PaymentKind);
    var fulfilment := AssembledShows(parts, FulfilmentKind);
    var stock := AssembledShows(parts, InventoryKind);
    var e := Assemble(parts).value;
    forall x | x in e.inventory ensures x in stock.inventory { assert x in multiset(e.inventory) && x in multiset(stock.inventory); }
  }

  /** Under any interference, each record of the evidence was in the store at the moment of one of
      the run's reads of its kind. */
  lemma EvidenceWasRead(digest: Digester, init: Store, events: seq<Event>)
    requires AdvanceAll(digest, init, events).run.evidence.Some?
    ensures var e := AdvanceAll(digest, init, events).run.evidence.value;
            && OrderRead(digest, init, events, e.order)
            && PaymentRead(digest, init, events, e.order.paymentID, e.payment)
            && FulfilmentRead(digest, init, events, e.order.id, e.fulfilment)
            && AllStockRead(digest, init, events, e.inventory)
  {
    RunIsTraced(digest, init, events);
    var run := AdvanceAll(digest, init, events).run;
    hide AdvanceAll, OrderRead, PartsRead, Assemble, PaymentRead, FulfilmentRead, AllStockRead;
    EvidenceFromParts(digest, init, events, run.order.value, run.parts);
  }

  /** Under any interference, a request is prepared only if the order was waiting when it was
      loaded, its payment captured when that was read, its fulfilment blocked when that was read, and
      there was enough of its item in stock at the proposal's target when that was read. */
  lemma PreparedWasSupported(digest: Digester, init: Store, events: seq<Event>)
    requires WellFormed(init) && AdvanceAll(digest, init, events).run.prepared.Some?
    ensures var p := AdvanceAll(digest, init, events).run.prepared.value.proposal;
            exists o, v, f, x ::
              && OrderRead(digest, init, events, o) && o.id == p.orderID && o.status == AwaitingFulfilment
              && o.warehouse == p.fromWarehouse && o.version == p.expectedOrderVersion && o.items == [Item(p.sku, p.quantity)]
              && PaymentRead(digest, init, events, o.paymentID, v) && v.status == Captured
              && FulfilmentRead(digest, init, events, o.id, f) && f.state == Blocked
              && StockRead(digest, init, events, x) && x.sku == p.sku && x.warehouse == p.toWarehouse && x.available >= p.quantity
  {
    ReadsLieBetween(digest, init, events);
    var run := AdvanceAll(digest, init, events).run;
    var e, p := run.evidence.value, run.prepared.value.proposal;
    EvidenceWasRead(digest, init, events);
    AcceptedMeans(run.result.value);
    hide AdvanceAll, Accepts, OrderRead, PaymentRead, FulfilmentRead, StockRead, RunBetween;
    var x :| x in e.inventory && x.warehouse == p.toWarehouse && x.sku == p.sku && x.available >= p.quantity;
    assert StockRead(digest, init, events, x);
  }
}
