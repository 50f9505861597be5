/** One run of the resolution workflow up to the prepared request, while other clients transfer
    over the same store. Every read of the run sees the store at its own moment. */
module Pipeline {
  import opened Text
  import opened Domain
  import opened TransferStore
  import opened Runs
  import opened EvidenceAssembly
  import FanIn
  import opened Validation
  import opened Approval

  // ---------- the run as a state machine ----------

  datatype Run = Run(
    failed: bool,
    order: Option<Order>,
    stock: seq<Inventory>, stockRead: nat,
    parts: seq<Part>,
    evidence: Option<Evidence>,
    result: Option<InvestigationResult>,
    prepared: Option<ApprovalRequest>)

  datatype World = World(store: Store, run: Run)

  /** What can happen next: another client's transfer, one read of a check, or one executor. */
  datatype Event =
    | Others(call: Call)
    | Load(cancelled: bool, id: string)
    | ReadPayment(cancelled: bool)
    | ReadInventory(cancelled: bool)
    | ReadFulfilment(cancelled: bool)
    | AskShipping(status: Result<ShippingStatus>, estimate: Result<DeliveryEstimate>)
    | OpenBarrier
    | Recommend(reply: Result<Recommendation>)
    | PrepareApproval

  const NOT_RUN := Run(false, None, [], 0, [], None, None, None)

  /** A check's part arrives, or the run fails with it. */
  function Arrive(run: Run, part: Result<Part>): Run {
    match part
    case Err(_) => run.(failed := true)
    case Ok(p) => run.(parts := run.parts + [p])
  }

  /** The checks run once each, in any order, between the load and the barrier. */
  predicate Checking(run: Run, kind: Kind) {
    run.order.Some? && run.evidence.None? && kind !in KindsOf(run.parts)
  }

  function AdvanceRun(s: Store, run: Run, event: Event): Run {
    match event
    case Load(cancelled, id) =>
      if run.order.Some? then run
      else (match LoadOrder(View(s, cancelled), id)
            case Err(_) => run.(failed := true)
            case Ok(order) => run.(order := Some(order)))
    case ReadPayment(cancelled) =>
      if !Checking(run, PaymentKind) then run else Arrive(run, CheckPayment(View(s, cancelled), run.order.value))
    case ReadFulfilment(cancelled) =>
      if !Checking(run, FulfilmentKind) then run else Arrive(run, CheckFulfilment(View(s, cancelled), run.order.value))
    case AskShipping(status, estimate) =>
      if !Checking(run, ShippingKind) then run else Arrive(run, CheckShipping(run.order.value, status, estimate))
    case ReadInventory(cancelled) =>
      if !Checking(run, InventoryKind) || run.stockRead >= 2 then run
      else if run.order.value.items == [] then run.(failed := true)
      else (match ReadStock(View(s, cancelled), run.order.value, run.stock, Warehouses(run.order.value)[run.stockRead])
            case Err(_) => run.(failed := true)
            case Ok(values) =>
              if run.stockRead == 0 then run.(stock := values, stockRead := 1)
              else Arrive(run.(stock := values, stockRead := 2), Ok(InventoryPart(run.order.value, values))))
    case OpenBarrier =>
      if run.evidence.Some? || |run.parts| != 4 then run
      else (match Assemble(run.parts)
            case Err(_) => run.(failed := true)
            case Ok(e) => run.(evidence := Some(e)))
    case Recommend(reply) =>
      if run.evidence.None? || run.result.Some? then run
      else (match Reason(run.evidence.value, reply)
            case Err(_) => run.(failed := true)
            case Ok(r) => run.(result := Some(r)))
    case PrepareApproval =>
      if run.result.None? || run.prepared.Some? then run
      else (match Prepare(run.result.value)
            case Err(_) => run.(failed := true)
            case Ok(q) => run.(prepared := Some(q)))
    case Others(_) => run
  }

  /** One event; a failed run takes no further step, other clients go on. */
  function Advance(digest: Digester, w: World, event: Event): World {
    if event.Others? then w.(store := Transfer(digest, w.store, event.call).0)
    else if w.run.failed then w
    else w.(run := AdvanceRun(w.store, w.run, event))
  }

  function AdvanceAll(digest: Digester, init: Store, events: seq<Event>): World {
    if events == [] then World(init, NOT_RUN)
    else Advance(digest, AdvanceAll(digest, init, events[..|events| - 1]), events[|events| - 1])
  }

  // ---------- how a run fails ----------

  /** What an event asks for and does not get. */
  ghost predicate Fails(s: Store, run: Run, event: Event) {
    match event
    case Load(c, id) => run.order.None? && GetOrder(s, c, id).Err?
    case ReadPayment(c) => Checking(run, PaymentKind) && GetPayment(s, c, run.order.value.paymentID).Err?
    case ReadFulfilment(c) => Checking(run, FulfilmentKind) && GetFulfilment(s, c, run.order.value.id).Err?
    case AskShipping(status, estimate) =>
      Checking(run, ShippingKind) && ((run.order.value.shipmentID != "" && status.Err?) || estimate.Err?)
    case ReadInventory(c) =>
      && Checking(run, InventoryKind) && run.stockRead < 2
      && (run.order.value.items == []
          || (var w := [run.order.value.warehouse, SYDNEY][run.stockRead];
              (forall x | x in run.stock :: x.warehouse != w) && GetInventory(s, c, run.order.value.items[0].sku, w).Err?))
    case OpenBarrier => run.evidence.None? && |run.parts| == 4 && Assemble(run.parts).Err?
    case Recommend(reply) => run.evidence.Some? && run.result.None? && Reason(run.evidence.value, reply).Err?
    case PrepareApproval => run.result.Some? && run.prepared.None? && !Accepts(run.result.value)
    case Others(_) => false
  }

  /** A run fails with an event exactly if it does not get what the event asks for. */
  lemma RunFailsExactly(digest: Digester, w: World, event: Event)
    requires !w.run.failed
    ensures Advance(digest, w, event).run.failed <==> Fails(w.store, w.run, event)
  {
    hide KindsOf, Assemble, Reason, Accepts, IsBlank, Transfer;
    if event.ReadInventory? && Checking(w.run, InventoryKind) && w.run.stockRead < 2 && w.run.order.value.items != [] {
      StockTurn(View(w.store, event.cancelled), w.run.order.value, w.run.stock, Warehouses(w.run.order.value)[w.run.stockRead]);
    }
  }

  /** Nothing is prepared in a failed run. */
  lemma {:induction false} FailedPreparedNothing(digest: Digester, init: Store, events: seq<Event>)
    ensures var run := AdvanceAll(digest, init, events).run;
            && (run.prepared.Some? ==> run.result.Some?) && (run.result.Some? ==> run.evidence.Some?)
            && (run.evidence.Some? || run.parts != [] ==> run.order.Some?)
            && (run.failed ==> run.prepared.None?)
  {
    if events != [] {
      FailedPreparedNothing(digest, init, events[..|events| - 1]);
      hide KindsOf, Assemble, Reason, Accepts, IsBlank, Transfer, ReadStock;
    }
  }

  /** A failure ends the run: nothing it holds changes any more, and no request is ever prepared. */
  lemma {:induction false} FailureEndsRun(digest: Digester, init: Store, events: seq<Event>, k: nat)
    requires k <= |events| && AdvanceAll(digest, init, events[..k]).run.failed
    ensures AdvanceAll(digest, init, events).run == AdvanceAll(digest, init, events[..k]).run
    ensures AdvanceAll(digest, init, events).run.prepared.None?
  {
    if k == |events| {
      assert events[..k] == events;
      FailedPreparedNothing(digest, init, events);
    } else {
      assert events[..|events| - 1][..k] == events[..k];
      FailureEndsRun(digest, init, events[..|events| - 1], k);
      hide AdvanceRun, Transfer;
    }
  }

  // ---------- what was read lies between the first store and the present one ----------

  ghost predicate OrderBetween(a: Store, b: Store, o: Order) {
    && !IsBlank(o.id) && o.id in a.orders && o.id in b.orders
    && OrderEvolves(a.orders[o.id], o) && OrderEvolves(o, b.orders[o.id])
  }

  ghost predicate PaymentBetween(a: Store, b: Store, o: Order, v: Payment) {
    && o.paymentID in a.payments && a.payments[o.paymentID] == v
    && o.paymentID in b.payments && b.payments[o.paymentID] == v
  }

  ghost predicate FulfilmentBetween(a: Store, b: Store, o: Order, f: Fulfilment) {
    && o.id in a.fulfilments && FulfilmentEvolves(a.fulfilments[o.id], f)
    && o.id in b.fulfilments && FulfilmentEvolves(f, b.fulfilments[o.id])
  }

  ghost predicate StockBetween(a: Store, b: Store, x: Inventory) {
    var k := InventoryKey(x.sku, x.warehouse);
    k in a.inventory && StockEvolves(a.inventory[k], x) && k in b.inventory && StockEvolves(x, b.inventory[k])
  }

  ghost predicate AllStockBetween(a: Store, b: Store, xs: seq<Inventory>) {
    forall x | x in xs :: StockBetween(a, b, x)
  }

  /** A record stored for the SKU of the order's first item at its own warehouse or at Sydney. */
  predicate AskedFor(o: Order, x: Inventory)
    requires o.items != []
  {
    var k := InventoryKey(x.sku, x.warehouse);
    k == InventoryKey(o.items[0].sku, o.warehouse) || k == InventoryKey(o.items[0].sku, SYDNEY)
  }

  /** Inventory read for an order: what is stored for its own warehouse and for Sydney, and of the
      records that are for its item one for each warehouse. */
  ghost predicate StockFor(o: Order, xs: seq<Inventory>) {
    && o.items != [] && xs != []
    && !IsBlank(o.items[0].sku) && !IsBlank(o.warehouse)
    && (forall x | x in xs :: AskedFor(o, x))
    && OneRecordPerWarehouse(xs, o.items[0].sku)
  }

  ghost predicate PartBetween(a: Store, b: Store, o: Order, p: Part) {
    && p.order == o
    && match p.kind
       case PaymentKind => p.payment.Some? && PaymentBetween(a, b, o, p.payment.value)
       case FulfilmentKind => p.fulfilment.Some? && FulfilmentBetween(a, b, o, p.fulfilment.value)
       case InventoryKind => AllStockBetween(a, b, p.inventory) && StockFor(o, p.inventory)
       case ShippingKind => |p.deliveryEstimates| == 1
       case OtherKind(_) => false
  }

  ghost predicate EvidenceBetween(a: Store, b: Store, e: Evidence) {
    && OrderBetween(a, b, e.order)
    && PaymentBetween(a, b, e.order, e.payment)
    && FulfilmentBetween(a, b, e.order, e.fulfilment)
    && AllStockBetween(a, b, e.inventory) && StockFor(e.order, e.inventory)
    && |e.deliveryEstimates| == 1
  }

  ghost predicate RunBetween(a: Store, b: Store, run: Run) {
    && (run.order.None? ==> run.parts == [] && run.stock == [] && run.stockRead == 0)
    && (run.order.Some? ==> OrderBetween(a, b, run.order.value))
    && (forall p | p in run.parts :: PartBetween(a, b, run.order.value, p))
    && AllStockBetween(a, b, run.stock)
    && (run.order.Some? ==> (run.stockRead == 0 ==> run.stock == [])
                            && (run.stockRead > 0 ==> StockFor(run.order.value, run.stock)))
    && (run.evidence.Some? ==> EvidenceBetween(a, b, run.evidence.value))
    && (run.result.Some? ==> run.evidence.Some? && run.result.value.evidence == run.evidence.value)
    && (run.prepared.Some? ==>
          run.result.Some? && Accepts(run.result.value) && run.prepared.value.proposal == run.result.value.recommendation.proposal.value)
  }

  // ---------- reads made now, and the present moving on ----------

  lemma ReadsNow(a: Store, b: Store)
    requires Evolves(a, b) && KeysAgree(a) && KeysAgree(b)
    ensures forall id | id in b.orders && !IsBlank(id) :: OrderBetween(a, b, b.orders[id])
    ensures forall o: Order | o.paymentID in b.payments :: PaymentBetween(a, b, o, b.payments[o.paymentID])
    ensures forall o: Order | o.id in b.fulfilments :: FulfilmentBetween(a, b, o, b.fulfilments[o.id])
    ensures forall k | k in b.inventory :: StockBetween(a, b, b.inventory[k])
  {
    forall id | id in b.orders && !IsBlank(id) ensures OrderBetween(a, b, b.orders[id]) {
      assert OrderEvolves(a.orders[id], b.orders[id]);
    }
    forall k | k in b.inventory ensures StockBetween(a, b, b.inventory[k]) {
      assert StockEvolves(a.inventory[k], b.inventory[k]);
    }
  }

  /** What one inventory read for an order finds. */
  lemma StockFound(a: Store, b: Store, o: Order, warehouse: string)
    requires Evolves(a, b) && KeysAgree(a) && KeysAgree(b) && o.items != []
    requires InventoryKey(o.items[0].sku, warehouse) in b.inventory
    ensures var x := b.inventory[InventoryKey(o.items[0].sku, warehouse)];
            && StockBetween(a, b, x) && InventoryKey(x.sku, x.warehouse) == InventoryKey(o.items[0].sku, warehouse)
            && (x.sku == o.items[0].sku ==> x.warehouse == warehouse)
  {
    var k := InventoryKey(o.items[0].sku, warehouse);
    InventoryKeyWarehouse(o.items[0].sku, b.inventory[k].warehouse, warehouse);
    ReadsNow(a, b);
    hide StockBetween, Evolves, InventoryKey;
  }

  lemma StockReadFits(a: Store, b: Store, o: Order, values: seq<Inventory>, warehouse: string, cancelled: bool)
    requires Evolves(a, b) && KeysAgree(a) && KeysAgree(b) && o.items != []
    requires AllStockBetween(a, b, values) && ReadStock(View(b, cancelled), o, values, warehouse).Ok?
    requires if values == [] then warehouse == o.warehouse else warehouse == SYDNEY && StockFor(o, values)
    ensures var more := ReadStock(View(b, cancelled), o, values, warehouse).value;
            AllStockBetween(a, b, more) && StockFor(o, more)
  {
    hide StockBetween, Evolves, KeysAgree, InventoryKey, IsBlank;
    var more := ReadStock(View(b, cancelled), o, values, warehouse).value;
    if more != values {
      var x := b.inventory[InventoryKey(o.items[0].sku, warehouse)];
      assert more == values + [x];
      StockFound(a, b, o, warehouse);
      assert forall y | y in values :: y.warehouse != warehouse;
    }
  }

  lemma OrderStaysBetween(a: Store, b: Store, c: Store, o: Order)
    requires OrderBetween(a, b, o) && Evolves(b, c)
    ensures OrderBetween(a, c, o)
  {
    assert OrderEvolves(b.orders[o.id], c.orders[o.id]);
  }

  lemma FulfilmentStaysBetween(a: Store, b: Store, c: Store, o: Order, f: Fulfilment)
    requires FulfilmentBetween(a, b, o, f) && Evolves(b, c)
    ensures FulfilmentBetween(a, c, o, f)
  {
    assert FulfilmentEvolves(b.fulfilments[o.id], c.fulfilments[o.id]);
  }

  lemma StockStaysBetween(a: Store, b: Store, c: Store, xs: seq<Inventory>)
    requires AllStockBetween(a, b, xs) && Evolves(b, c)
    ensures AllStockBetween(a, c, xs)
  {
    forall x | x in xs ensures StockBetween(a, c, x) {
      assert StockBetween(a, b, x);
      var k := InventoryKey(x.sku, x.warehouse);
      assert StockEvolves(b.inventory[k], c.inventory[k]);
    }
  }

  lemma PartStaysBetween(a: Store, b: Store, c: Store, o: Order, p: Part)
    requires PartBetween(a, b, o, p) && Evolves(b, c)
    ensures PartBetween(a, c, o, p)
  {
    hide StockFor, AllStockBetween, FulfilmentBetween, FulfilmentEvolves, OrderEvolves, StockEvolves;
    match p.kind
    case FulfilmentKind => FulfilmentStaysBetween(a, b, c, o, p.fulfilment.value);
    case InventoryKind => StockStaysBetween(a, b, c, p.inventory);
    case _ =>
  }

  lemma EvidenceStaysBetween(a: Store, b: Store, c: Store, e: Evidence)
    requires EvidenceBetween(a, b, e) && Evolves(b, c)
    ensures EvidenceBetween(a, c, e)
  {
    hide StockFor, AllStockBetween, FulfilmentBetween, OrderBetween, FulfilmentEvolves, OrderEvolves, StockEvolves;
    OrderStaysBetween(a, b, c, e.order);
    FulfilmentStaysBetween(a, b, c, e.order, e.fulfilment);
    StockStaysBetween(a, b, c, e.inventory);
  }

  lemma RunStaysBetween(a: Store, b: Store, c: Store, run: Run)
    requires RunBetween(a, b, run) && Evolves(b, c)
    ensures RunBetween(a, c, run)
  {
    hide StockFor, AllStockBetween, PartBetween, EvidenceBetween, OrderBetween, Evolves, Accepts;
    if run.order.Some? { OrderStaysBetween(a, b, c, run.order.value); }
    StockStaysBetween(a, b, c, run.stock);
    if run.evidence.Some? { EvidenceStaysBetween(a, b, c, run.evidence.value); }
    forall p | p in run.parts ensures PartBetween(a, c, run.order.value, p) { PartStaysBetween(a, b, c, run.order.value, p); }
  }

  // ---------- every event keeps what was read in between ----------

  lemma PartArrives(a: Store, b: Store, run: Run, part: Result<Part>)
    requires RunBetween(a, b, run) && run.order.Some?
    requires part.Ok? ==> PartBetween(a, b, run.order.value, part.value)
    ensures RunBetween(a, b, Arrive(run, part))
  {
    hide StockFor, AllStockBetween, PartBetween, EvidenceBetween, OrderBetween, Accepts;
  }

  lemma InventoryReadKeeps(a: Store, b: Store, run: Run, cancelled: bool)
    requires Evolves(a, b) && KeysAgree(a) && KeysAgree(b) && RunBetween(a, b, run)
    ensures RunBetween(a, b, AdvanceRun(b, run, ReadInventory(cancelled)))
  {
    if Checking(run, InventoryKind) && run.stockRead < 2 && run.order.value.items != [] {
      var o := run.order.value;
      var w := Warehouses(o)[run.stockRead];
      assert if run.stock == [] then w == o.warehouse else w == SYDNEY && StockFor(o, run.stock);
      var r := ReadStock(View(b, cancelled), o, run.stock, w);
      if r.Ok? {
        StockReadFits(a, b, o, run.stock, w, cancelled);
        hide StockFor, AllStockBetween, EvidenceBetween, OrderBetween, Accepts, ReadStock, KindsOf;
        if run.stockRead == 1 {
          var next := run.(stock := r.value, stockRead := 2);
          assert RunBetween(a, b, next);
          PartArrives(a, b, next, Ok(InventoryPart(o, r.value)));
        }
      }
    }
    hide StockFor, AllStockBetween, EvidenceBetween, OrderBetween, Accepts, ReadStock, KindsOf, PartBetween;
  }

  lemma SortedStockFits(a: Store, b: Store, o: Order, xs: seq<Inventory>, ys: seq<Inventory>)
    requires AllStockBetween(a, b, xs) && StockFor(o, xs) && multiset(xs) == multiset(ys)
    ensures AllStockBetween(a, b, ys) && StockFor(o, ys)
  {
    forall y | y in ys ensures y in xs { assert y in multiset(ys) && y in multiset(xs); }
    assert |xs| == |multiset(xs)| == |multiset(ys)| == |ys|;
    hide StockBetween, AskedFor;
  }

  /** The barrier turns parts read in between into evidence read in between. */
  lemma AssembledBetween(a: Store, b: Store, o: Order, parts: seq<Part>)
    requires OrderBetween(a, b, o) && (forall p | p in parts :: PartBetween(a, b, o, p)) && Assemble(parts).Ok?
    ensures EvidenceBetween(a, b, Assemble(parts).value)
  {
    var e := Assemble(parts).value;
    assert forall p | p in parts :: PartBetween(a, b, o, p) && p.order == o;
    assert o.id != "";
    AssembledOrder(parts, o);
    var payment := AssembledShows(parts, PaymentKind);
    var inventory := AssembledShows(parts, InventoryKind);
    var fulfilment := AssembledShows(parts, FulfilmentKind);
    var shipping := AssembledShows(parts, ShippingKind);
    assert PartBetween(a, b, o, payment) && PartBetween(a, b, o, inventory);
    assert PartBetween(a, b, o, fulfilment) && PartBetween(a, b, o, shipping);
    hide OrderBetween, PaymentBetween, FulfilmentBetween, AllStockBetween, StockFor, Assemble;
    SortedStockFits(a, b, o, inventory.inventory, e.inventory);
    assert |multiset(shipping.deliveryEstimates)| == |shipping.deliveryEstimates|;
    assert |multiset(e.deliveryEstimates)| == |e.deliveryEstimates|;
  }

  lemma LoadKeeps(a: Store, b: Store, run: Run, cancelled: bool, id: string)
    requires Evolves(a, b) && KeysAgree(a) && KeysAgree(b) && RunBetween(a, b, run)
    ensures RunBetween(a, b, AdvanceRun(b, run, Load(cancelled, id)))
  {
    if id in b.orders && !IsBlank(id) {
      assert OrderEvolves(a.orders[id], b.orders[id]);
      assert OrderBetween(a, b, b.orders[id]);
    }
    hide StockFor, AllStockBetween, EvidenceBetween, OrderBetween, PartBetween, Accepts, Evolves, KeysAgree, IsBlank;
  }

  lemma PaymentPartFits(a: Store, b: Store, o: Order, cancelled: bool)
    requires Evolves(a, b)
    ensures CheckPayment(View(b, cancelled), o).Ok? ==> PartBetween(a, b, o, CheckPayment(View(b, cancelled), o).value)
  {
    assert b.payments == a.payments;
    hide Evolves, IsBlank;
  }

  lemma FulfilmentPartFits(a: Store, b: Store, o: Order, cancelled: bool)
    requires Evolves(a, b)
    ensures CheckFulfilment(View(b, cancelled), o).Ok? ==> PartBetween(a, b, o, CheckFulfilment(View(b, cancelled), o).value)
  {
    if o.id in b.fulfilments { assert FulfilmentEvolves(a.fulfilments[o.id], b.fulfilments[o.id]); }
    hide Evolves, IsBlank;
  }

  lemma ShippingPartFits(a: Store, b: Store, o: Order, status: Result<ShippingStatus>, estimate: Result<DeliveryEstimate>)
    ensures CheckShipping(o, status, estimate).Ok? ==> PartBetween(a, b, o, CheckShipping(o, status, estimate).value)
  {
  }

  lemma CheckKeeps(a: Store, b: Store, run: Run, event: Event)
    requires Evolves(a, b) && RunBetween(a, b, run)
    requires event.ReadPayment? || event.ReadFulfilment? || event.AskShipping?
    ensures RunBetween(a, b, AdvanceRun(b, run, event))
  {
    hide RunBetween, PartBetween, CheckPayment, CheckFulfilment, CheckShipping, KindsOf, Evolves;
    match event
    case ReadPayment(cancelled) =>
      if Checking(run, PaymentKind) {
        PaymentPartFits(a, b, run.order.value, cancelled);
        PartArrives(a, b, run, CheckPayment(View(b, cancelled), run.order.value));
      }
    case ReadFulfilment(cancelled) =>
      if Checking(run, FulfilmentKind) {
        FulfilmentPartFits(a, b, run.order.value, cancelled);
        PartArrives(a, b, run, CheckFulfilment(View(b, cancelled), run.order.value));
      }
    case AskShipping(status, estimate) =>
      if Checking(run, ShippingKind) {
        ShippingPartFits(a, b, run.order.value, status, estimate);
        PartArrives(a, b, run, CheckShipping(run.order.value, status, estimate));
      }
  }

  lemma LaterStagesKeep(a: Store, b: Store, run: Run, event: Event)
    requires RunBetween(a, b, run)
    requires event.OpenBarrier? || event.Recommend? || event.PrepareApproval?
    ensures RunBetween(a, b, AdvanceRun(b, run, event))
  {
    if event.OpenBarrier? && run.evidence.None? && |run.parts| == 4 && Assemble(run.parts).Ok? {
      assert run.order.Some?;
      AssembledBetween(a, b, run.order.value, run.parts);
    }
    hide StockFor, AllStockBetween, EvidenceBetween, OrderBetween, PartBetween, Accepts, Assemble;
  }

  lemma AdvanceKeeps(digest: Digester, a: Store, w: World, event: Event)
    requires WellFormed(a) && WellFormed(w.store) && Evolves(a, w.store) && RunBetween(a, w.store, w.run)
    ensures var v := Advance(digest, w, event);
            WellFormed(v.store) && Evolves(a, v.store) && RunBetween(a, v.store, v.run)
  {
    hide RunBetween, AdvanceRun, Transfer, Evolves;
    if event.Others? {
      TransferKeepsWellFormed(digest, w.store, event.call);
      StepEvolves(digest, w.store, event.call);
      var t := Transfer(digest, w.store, event.call).0;
      EvolvesTransitive(a, w.store, t);
      RunStaysBetween(a, w.store, t, w.run);
    } else if !w.run.failed {
      match event
      case ReadInventory(cancelled) => InventoryReadKeeps(a, w.store, w.run, cancelled);
      case OpenBarrier => LaterStagesKeep(a, w.store, w.run, event);
      case Recommend(_) => LaterStagesKeep(a, w.store, w.run, event);
      case PrepareApproval => LaterStagesKeep(a, w.store, w.run, event);
      case Load(cancelled, id) => LoadKeeps(a, w.store, w.run, cancelled, id);
      case _ => CheckKeeps(a, w.store, w.run, event);
    }
  }

  /** In every reachable world everything the run has read lies between the store it began on and
      the store as it is now. */
  lemma {:induction false} ReadsLieBetween(digest: Digester, init: Store, events: seq<Event>)
    requires WellFormed(init)
    ensures var w := AdvanceAll(digest, init, events);
            WellFormed(w.store) && Evolves(init, w.store) && RunBetween(init, w.store, w.run)
  {
    if events != [] {
      ReadsLieBetween(digest, init, events[..|events| - 1]);
      hide RunBetween, Advance, Evolves, WellFormed;
      AdvanceKeeps(digest, init, AdvanceAll(digest, init, events[..|events| - 1]), events[|events| - 1]);
    }
  }

  // ---------- what a commit says about the evidence ----------

  lemma BetweenIsNow(a: Store, e: Evidence)
    requires EvidenceBetween(a, a, e)
    ensures a.orders[e.order.id] == e.order && a.fulfilments[e.order.id] == e.fulfilment
    ensures forall x | x in e.inventory :: a.inventory[InventoryKey(x.sku, x.warehouse)] == x
  {
    forall x | x in e.inventory ensures a.inventory[InventoryKey(x.sku, x.warehouse)] == x {
      assert StockBetween(a, a, x);
    }
  }

  /** Evidence gathered read by read, while others transferred, agrees in every part that matters
      with the store at the instant of a fresh commit of a validated proposal; and stock has only
      fallen since it was read, though not below what the commit takes. */
  lemma CommitCertifiesEvidence(digest: Digester, init: Store, s: Store, r: InvestigationResult, call: Call)
    requires KeysAgree(s) && LedgerOfOriginals(s)
    requires EvidenceBetween(init, s, r.evidence) && Accepts(r)
    requires call.command.proposal == r.recommendation.proposal.value && IsFresh(Transfer(digest, s, call).1)
    ensures var e, p := r.evidence, call.command.proposal;
            && p.orderID == e.order.id
            && s.orders[e.order.id] == e.order
            && s.payments[e.order.paymentID] == e.payment
            && s.fulfilments[e.order.id] == e.fulfilment
            && (forall x | x in e.inventory ::
                  var k := InventoryKey(x.sku, x.warehouse);
                  k in s.inventory && s.inventory[k].available <= x.available)
            && s.inventory[InventoryKey(p.sku, p.toWarehouse)].available >= p.quantity
  {
    var e, p := r.evidence, call.command.proposal;
    AcceptedMeans(r);
    TransferExactly(digest, s, call);
    hide Accepts, Transfer, Authorised;
    assert OrderEvolves(e.order, s.orders[e.order.id]) && FulfilmentEvolves(e.fulfilment, s.fulfilments[e.order.id]);
    forall x | x in e.inventory
      ensures InventoryKey(x.sku, x.warehouse) in s.inventory
              && s.inventory[InventoryKey(x.sku, x.warehouse)].available <= x.available
    {
      assert StockBetween(init, s, x);
    }
  }

  /** What a validated proposal of a run would draw on is the stock of its own SKU and target,
      whatever characters they hold. */
  lemma ValidatedDrawsOwnStock(init: Store, s: Store, r: InvestigationResult)
    requires EvidenceBetween(init, s, r.evidence) && Accepts(r)
    ensures var p := r.recommendation.proposal.value;
            InventoryKey(p.sku, p.toWarehouse) in s.inventory && DrawsOwnStock(s, p)
  {
    var e, p := r.evidence, r.recommendation.proposal.value;
    AcceptedMeans(r);
    var x :| x in e.inventory && x.warehouse == p.toWarehouse && x.sku == p.sku && x.available >= p.quantity;
    assert StockBetween(init, s, x);
    hide Accepts, StockFor, AllStockBetween, OrderBetween;
  }

  /** Once prepared, an authorised transfer under an unused key goes through exactly when the order
      is still the one in the evidence and the target still has the stock: the check of the
      fulfilment, which the validator does not make, follows from the coupling of the records. */
  lemma CommitExactly(digest: Digester, init: Store, s: Store, r: InvestigationResult, call: Call)
    requires WellFormed(s) && LedgerOfOriginals(s)
    requires EvidenceBetween(init, s, r.evidence) && Accepts(r)
    requires call.command.proposal == r.recommendation.proposal.value && call.command.key !in s.transfers
    requires Authorised(digest, call)
    ensures var e, p := r.evidence, call.command.proposal;
            InventoryKey(p.sku, p.toWarehouse) in s.inventory
            && (IsFresh(Transfer(digest, s, call).1) <==>
                s.orders[e.order.id] == e.order && s.inventory[InventoryKey(p.sku, p.toWarehouse)].available >= p.quantity)
  {
    var e, p := r.evidence, call.command.proposal;
    AcceptedMeans(r);
    TransferExactly(digest, s, call);
    var x :| x in e.inventory && x.warehouse == p.toWarehouse && x.sku == p.sku && x.available >= p.quantity;
    assert StockBetween(init, s, x);
    if IsFresh(Transfer(digest, s, call).1) {
      CommitCertifiesEvidence(digest, init, s, r, call);
    }
    hide Accepts, Transfer, Authorised, StockFor, AllStockBetween, LedgerOfOriginals;
  }

  /** On the evidence of every run the validator is an exact decision procedure: there is a
      proposal to accept exactly when the evidence supports moving the order to where the one
      estimate starts, and whatever the reasoner returns, it is accepted exactly when it proposes
      that transfer, which the evidence determines. */
  lemma OneProposalPerRun(digest: Digester, init: Store, events: seq<Event>, reply: Recommendation)
    requires WellFormed(init) && AdvanceAll(digest, init, events).run.evidence.Some?
    ensures var e := AdvanceAll(digest, init, events).run.evidence.value;
            && |e.deliveryEstimates| == 1
            && var origin := e.deliveryEstimates[0].origin;
            && (Accepts(InvestigationResult(e, reply)) <==>
                  reply.proposedAction == TRANSFER_ACTION && reply.proposal.Some? && reply.proposal == ProposalFor(e, origin))
            && (ProposalFor(e, origin).Some? <==> Supports(e, origin))
  {
    ReadsLieBetween(digest, init, events);
    var e := AdvanceAll(digest, init, events).run.evidence.value;
    hide AdvanceAll, ProposalFor, OrderBetween, PaymentBetween, FulfilmentBetween, AllStockBetween, PartBetween, AskedFor;
    ValidatorExact(e, reply);
  }

  /** And whichever order the four checks of a run finish in, its evidence is the same: they all
      carry the one order that was loaded. */
  lemma FanInOfRun(digest: Digester, init: Store, events: seq<Event>, arrived: seq<Part>)
    requires WellFormed(init) && multiset(arrived) == multiset(AdvanceAll(digest, init, events).run.parts)
    ensures Assemble(arrived) == Assemble(AdvanceAll(digest, init, events).run.parts)
  {
    ReadsLieBetween(digest, init, events);
    var run := AdvanceAll(digest, init, events).run;
    assert FanIn.OneOrderOnly(run.parts) by {
      assert forall p | p in run.parts :: PartBetween(init, AdvanceAll(digest, init, events).store, run.order.value, p);
    }
    hide AdvanceAll, RunBetween, Assemble, FanIn.OneOrderOnly;
    FanIn.ArrivalOrderIrrelevantExactly(run.parts);
  }

  // ---------- completeness ----------

  lemma {:induction false} AloneNothingMoves(digest: Digester, init: Store, events: seq<Event>)
    requires forall e | e in events :: !e.Others?
    ensures AdvanceAll(digest, init, events).store == init
  {
    if events != [] { AloneNothingMoves(digest, init, events[..|events| - 1]); }
  }

  /** The approval a prepared request needs, as the caller can check it. */
  predicate Approves(digest: Digester, prepared: ApprovalRequest, decision: Decision) {
    && decision.approved && decision.proposalDigest == digest(prepared.proposal)
    && decision.actor != "" && decision.HasPermission(TRANSFER_PERMISSION)
  }

  lemma DefaultKeyNotBlank()
    ensures !IsBlank(DEFAULT_KEY) && !IsBlank(SYDNEY)
  {
    assert DEFAULT_KEY[0] == 't' && !IsSpace(DEFAULT_KEY[0]);
    assert SYDNEY[0] == 'S' && !IsSpace(SYDNEY[0]);
  }

  /** Of the argument checks only those on the two numbers are left to the gate: the reads of the
      run have already made the others. */
  lemma PreparedArguments(digest: Digester, init: Store, s: Store, r: InvestigationResult, decision: Decision)
    requires EvidenceBetween(init, s, r.evidence) && Accepts(r)
    ensures var q := ApprovalRequest(r.recommendation.summary, r.recommendation.proposal.value);
            ValidCommand(GateCall(q, decision, false).command) <==> q.proposal.quantity > 0 && q.proposal.expectedOrderVersion > 0
  {
    AcceptedMeans(r);
    DefaultKeyNotBlank();
    var e, p := r.evidence, r.recommendation.proposal.value;
    var x :| x in e.inventory && x.warehouse == p.toWarehouse && x.sku == p.sku && x.available >= p.quantity;
    assert e.order.items[0].sku == p.sku && AskedFor(e.order, x);
    InventoryKeyWarehouse(p.sku, x.warehouse, e.order.warehouse);
    InventoryKeyWarehouse(p.sku, x.warehouse, SYDNEY);
    hide IsBlank, Accepts, AllStockBetween, FulfilmentBetween, PaymentBetween, InventoryKey;
  }

  /** With nobody interfering, an approved and authorised run on a store where its key is unused
      goes through exactly when quantity and version are positive. */
  lemma ValidatedPipelineComplete(digest: Digester, init: Store, events: seq<Event>, decision: Decision)
    requires WellFormed(init) && LedgerOfOriginals(init)
    requires forall e | e in events :: !e.Others?
    requires AdvanceAll(digest, init, events).run.prepared.Some?
    requires Approves(digest, AdvanceAll(digest, init, events).run.prepared.value, decision)
    requires DEFAULT_KEY !in init.transfers
    ensures var prepared := AdvanceAll(digest, init, events).run.prepared;
            var p := prepared.value.proposal;
            var r := Gate(digest, init, prepared, decision, false).1;
            (r.Ok? && r.value.status == TRANSFERRED && r.value.transfer.Some? && !r.value.transfer.value.alreadyApplied)
            <==> p.quantity > 0 && p.expectedOrderVersion > 0
  {
    var w := AdvanceAll(digest, init, events);
    var q, result := w.run.prepared.value, w.run.result.value by { ReadsLieBetween(digest, init, events); }
    AloneNothingMoves(digest, init, events);
    ReadsLieBetween(digest, init, events);
    assert EvidenceBetween(init, init, result.evidence) && Accepts(result);
    assert q.proposal == result.recommendation.proposal.value;
    AloneGoesThrough(digest, init, result, q, decision);
  }

  lemma AloneGoesThrough(digest: Digester, s: Store, result: InvestigationResult, q: ApprovalRequest, decision: Decision)
    requires WellFormed(s) && LedgerOfOriginals(s)
    requires EvidenceBetween(s, s, result.evidence) && Accepts(result) && q.proposal == result.recommendation.proposal.value
    requires Approves(digest, q, decision) && DEFAULT_KEY !in s.transfers
    ensures var r := Gate(digest, s, Some(q), decision, false).1;
            (r.Ok? && r.value.status == TRANSFERRED && r.value.transfer.Some? && !r.value.transfer.value.alreadyApplied)
            <==> q.proposal.quantity > 0 && q.proposal.expectedOrderVersion > 0
  {
    var call, p := GateCall(q, decision, false), q.proposal;
    PreparedArguments(digest, s, s, result, decision);
    if ValidCommand(call.command) {
      AcceptedMeans(result);
      BetweenIsNow(s, result.evidence);
      CommitExactly(digest, s, s, result, call);
    }
    TransferExactly(digest, s, call);
    hide WellFormed, EvidenceBetween, Accepts, Transfer, ValidCommand;
  }
}
