/** Runs that nothing disturbs: from every store whose records support moving an order to Sydney,
    the workflow prepares that transfer in whatever order its checks finish, and approval carries
    it out, or a stop between approval and manifest hides it behind a later rejection. */
module Undisturbed {
  import opened Text
  import opened Domain
  import opened TransferStore
  import opened Runs
  import opened EvidenceAssembly
  import opened Validation
  import opened Approval
  import opened EventLoops
  import opened Manifest
  import FanIn
  import Pipeline
  import R = Resolution

  function HomeStock(s: Store, o: Order): Inventory
    requires o.items != [] && InventoryKey(o.items[0].sku, o.warehouse) in s.inventory
  {
    s.inventory[InventoryKey(o.items[0].sku, o.warehouse)]
  }

  function SydneyStock(s: Store, o: Order): Inventory
    requires o.items != [] && InventoryKey(o.items[0].sku, SYDNEY) in s.inventory
  {
    s.inventory[InventoryKey(o.items[0].sku, SYDNEY)]
  }

  /** What the order's own records have to show. */
  ghost predicate Waiting(s: Store, o: Order) {
    && !IsBlank(o.id) && o.id in s.orders && s.orders[o.id] == o && o.id in s.fulfilments
    && o.status == AwaitingFulfilment && |o.items| == 1 && !IsBlank(o.items[0].sku)
    && !IsBlank(o.warehouse) && o.warehouse != SYDNEY
    && !IsBlank(o.paymentID) && o.paymentID in s.payments && s.payments[o.paymentID].status == Captured
  }

  /** There is a record for the order's own warehouse, which does not answer for Sydney, and one
      for its item at Sydney with enough of it. */
  ghost predicate Stocked(s: Store, o: Order)
    requires |o.items| == 1
  {
    && InventoryKey(o.items[0].sku, o.warehouse) in s.inventory && HomeStock(s, o).warehouse != SYDNEY
    && InventoryKey(o.items[0].sku, SYDNEY) in s.inventory && SydneyStock(s, o).sku == o.items[0].sku
    && o.items[0].quantity <= SydneyStock(s, o).available
  }

  /** What the records have to show, and the shipping service to answer. */
  ghost predicate Supported(s: Store, id: string, status: Result<ShippingStatus>, d: DeliveryEstimate) {
    && WellFormed(s) && id in s.orders && Waiting(s, s.orders[id]) && Stocked(s, s.orders[id])
    && (s.orders[id].shipmentID == "" || status.Ok?) && d.origin == SYDNEY
  }

  /** Stored under keys free of the separator, records answer for what they are stored for. */
  lemma CleanKeysAnswer(s: Store, o: Order)
    requires KeysAgree(s) && |o.items| == 1 && NUL !in o.items[0].sku && NUL !in o.warehouse
    ensures InventoryKey(o.items[0].sku, o.warehouse) in s.inventory ==>
              HomeStock(s, o).sku == o.items[0].sku && HomeStock(s, o).warehouse == o.warehouse
    ensures InventoryKey(o.items[0].sku, SYDNEY) in s.inventory ==>
              SydneyStock(s, o).sku == o.items[0].sku && SydneyStock(s, o).warehouse == SYDNEY
  {
    assert NUL !in SYDNEY;
    InventoryKeyUnambiguous(o.items[0].sku, o.warehouse);
    InventoryKeyUnambiguous(o.items[0].sku, SYDNEY);
  }

  /** The transfer those records call for. */
  function SydneyProposal(o: Order, d: DeliveryEstimate): Proposal
    requires o.items != []
  {
    Proposal(o.id, o.warehouse, SYDNEY, o.items[0].sku, o.items[0].quantity, o.version,
             d.additionalDays, d.additionalCostCents, d.currency)
  }

  // ---------- the checks, in any order ----------

  const PAYMENT := Pipeline.ReadPayment(false)
  const STOCK := Pipeline.ReadInventory(false)
  const FULFILMENT := Pipeline.ReadFulfilment(false)

  function Shipping(status: Result<ShippingStatus>, d: DeliveryEstimate): Pipeline.Event {
    Pipeline.AskShipping(status, Ok(d))
  }

  predicate IsRead(e: Pipeline.Event, status: Result<ShippingStatus>, d: DeliveryEstimate) {
    e == PAYMENT || e == STOCK || e == FULFILMENT || e == Shipping(status, d)
  }

  /** The kind of part a read contributes to. */
  function KindFor(e: Pipeline.Event): Kind {
    match e
    case ReadPayment(_) => PaymentKind
    case ReadFulfilment(_) => FulfilmentKind
    case AskShipping(_, _) => ShippingKind
    case _ => InventoryKind
  }

  /** Any order of the reads, each at least once, and of stock at least twice; a check that is
      done does not read again. */
  ghost predicate AllReads(checks: seq<Pipeline.Event>, status: Result<ShippingStatus>, d: DeliveryEstimate) {
    && (forall e | e in checks :: IsRead(e, status, d))
    && PAYMENT in checks && FULFILMENT in checks && Shipping(status, d) in checks && multiset(checks)[STOCK] >= 2
  }

  /** The part each check makes of the store. */
  function PartFound(s: Store, o: Order, status: Result<ShippingStatus>, d: DeliveryEstimate, kind: Kind): Part
    requires o.paymentID in s.payments && o.id in s.fulfilments && o.items != [] && (o.shipmentID == "" || status.Ok?)
    requires InventoryKey(o.items[0].sku, o.warehouse) in s.inventory && InventoryKey(o.items[0].sku, SYDNEY) in s.inventory
  {
    match kind
    case PaymentKind => BlankPart(kind, o).(payment := Some(s.payments[o.paymentID]))
    case InventoryKind => InventoryPart(o, [HomeStock(s, o), SydneyStock(s, o)])
    case FulfilmentKind => BlankPart(kind, o).(fulfilment := Some(s.fulfilments[o.id]))
    case ShippingKind =>
      BlankPart(kind, o).(
        shippingStatus := if o.shipmentID != "" then Some(status.value) else None,
        deliveryEstimates := [d])
    case OtherKind(_) => BlankPart(kind, o)
  }

  /** A run between the load and the barrier. */
  function Checked(o: Order, stock: seq<Inventory>, stockRead: nat, parts: seq<Part>): Pipeline.Run {
    Pipeline.Run(false, Some(o), stock, stockRead, parts, None, None, None)
  }

  ghost predicate OnlyFound(s: Store, o: Order, status: Result<ShippingStatus>, d: DeliveryEstimate, parts: seq<Part>)
    requires Waiting(s, o) && Stocked(s, o) && (o.shipmentID == "" || status.Ok?)
  {
    OncePerKind(parts) && forall p | p in parts :: p.kind in REQUIRED && p == PartFound(s, o, status, d, p.kind)
  }

  function StockSoFar(s: Store, o: Order, n: nat): seq<Inventory>
    requires |o.items| == 1 && InventoryKey(o.items[0].sku, o.warehouse) in s.inventory
    requires InventoryKey(o.items[0].sku, SYDNEY) in s.inventory
  {
    if n == 0 then [] else if n == 1 then [HomeStock(s, o)] else [HomeStock(s, o), SydneyStock(s, o)]
  }

  function Least(a: nat, b: nat): nat { if a < b then a else b }

  /** The kinds of parts there are after the given reads. */
  ghost predicate KindsFollow(
    checks: seq<Pipeline.Event>, kinds: set<Kind>, status: Result<ShippingStatus>, d: DeliveryEstimate)
  {
    && (InventoryKind in kinds <==> multiset(checks)[STOCK] >= 2)
    && (forall e | IsRead(e, status, d) && e != STOCK :: KindFor(e) in kinds <==> e in checks)
  }

  /** How far the checks have come after the given reads. */
  ghost predicate Progress(
    s: Store, o: Order, status: Result<ShippingStatus>, d: DeliveryEstimate, checks: seq<Pipeline.Event>, run: Pipeline.Run)
    requires Waiting(s, o) && Stocked(s, o) && (o.shipmentID == "" || status.Ok?)
  {
    var n := Least(2, multiset(checks)[STOCK]);
    && run == Checked(o, StockSoFar(s, o, n), n, run.parts)
    && OnlyFound(s, o, status, d, run.parts) && KindsFollow(checks, KindsOf(run.parts), status, d)
  }

  lemma FoundArrives(
    s: Store, o: Order, status: Result<ShippingStatus>, d: DeliveryEstimate, parts: seq<Part>, kind: Kind)
    requires Waiting(s, o) && Stocked(s, o) && (o.shipmentID == "" || status.Ok?)
    requires OnlyFound(s, o, status, d, parts) && kind in REQUIRED && kind !in KindsOf(parts)
    ensures var more := parts + [PartFound(s, o, status, d, kind)];
            OnlyFound(s, o, status, d, more) && KindsOf(more) == KindsOf(parts) + {kind}
  {
    var found := PartFound(s, o, status, d, kind);
    var more := parts + [found];
    assert found.kind == kind;
    assert more[..|more| - 1] == parts;
    hide PartFound, Waiting, Stocked, OncePerKind;
    KindsNext(more);
    OncePerKindNext(more);
    hide KindsOf;
    assert forall p :: p in more <==> p in parts || p == found;
  }

  /** A check other than of stock adds its part once. */
  lemma SimpleRead(
    s: Store, o: Order, status: Result<ShippingStatus>, d: DeliveryEstimate, stock: seq<Inventory>, n: nat, parts: seq<Part>,
    e: Pipeline.Event)
    requires Waiting(s, o) && Stocked(s, o) && (o.shipmentID == "" || status.Ok?) && IsRead(e, status, d) && e != STOCK
    ensures Pipeline.AdvanceRun(s, Checked(o, stock, n, parts), e) == Checked(o, stock, n,
              if KindFor(e) in KindsOf(parts) then parts else parts + [PartFound(s, o, status, d, KindFor(e))])
  {
    hide KindsOf, IsBlank, InventoryKey;
  }

  /** The two reads of stock, and any further one. */
  lemma StockRead(s: Store, o: Order, n: nat, parts: seq<Part>)
    requires KeysAgree(s) && Waiting(s, o) && Stocked(s, o) && n <= 2 && (InventoryKind in KindsOf(parts) <==> n == 2)
    ensures Pipeline.AdvanceRun(s, Checked(o, StockSoFar(s, o, n), n, parts), STOCK)
            == Checked(o, StockSoFar(s, o, Least(2, n + 1)), Least(2, n + 1),
              if n == 1 then parts + [InventoryPart(o, StockSoFar(s, o, 2))] else parts)
  {
    InventoryKeyWarehouse(o.items[0].sku, SydneyStock(s, o).warehouse, SYDNEY);
    Pipeline.DefaultKeyNotBlank();
    var home, sydney := HomeStock(s, o), SydneyStock(s, o);
    assert [] + [home] == [home] && [home] + [sydney] == [home, sydney];
    hide KeysAgree, InventoryKey, KindsOf, IsBlank;
  }

  lemma StockKinds(checks: seq<Pipeline.Event>, kinds: set<Kind>, status: Result<ShippingStatus>, d: DeliveryEstimate)
    requires KindsFollow(checks, kinds, status, d)
    ensures multiset(checks + [STOCK])[STOCK] == multiset(checks)[STOCK] + 1
    ensures KindsFollow(checks + [STOCK], if multiset(checks)[STOCK] == 1 then kinds + {InventoryKind} else kinds, status, d)
  {
    assert forall e :: e in checks + [STOCK] <==> e in checks || e == STOCK;
  }

  lemma SimpleKinds(
    checks: seq<Pipeline.Event>, kinds: set<Kind>, status: Result<ShippingStatus>, d: DeliveryEstimate, e: Pipeline.Event)
    requires KindsFollow(checks, kinds, status, d) && IsRead(e, status, d) && e != STOCK
    ensures multiset(checks + [e])[STOCK] == multiset(checks)[STOCK]
    ensures KindsFollow(checks + [e], kinds + {KindFor(e)}, status, d)
  {
    assert forall x :: x in checks + [e] <==> x in checks || x == e;
    assert multiset(checks + [e]) == multiset(checks) + multiset{e};
  }

  lemma StockStep(
    s: Store, o: Order, status: Result<ShippingStatus>, d: DeliveryEstimate, checks: seq<Pipeline.Event>, run: Pipeline.Run)
    requires KeysAgree(s) && Waiting(s, o) && Stocked(s, o) && (o.shipmentID == "" || status.Ok?)
    requires Progress(s, o, status, d, checks, run)
    ensures Progress(s, o, status, d, checks + [STOCK], Pipeline.AdvanceRun(s, run, STOCK))
  {
    var n := Least(2, multiset(checks)[STOCK]);
    StockKinds(checks, KindsOf(run.parts), status, d);
    StockRead(s, o, n, run.parts);
    assert PartFound(s, o, status, d, InventoryKind) == InventoryPart(o, StockSoFar(s, o, 2));
    if n == 1 { FoundArrives(s, o, status, d, run.parts, InventoryKind); }
    hide Waiting, Stocked, KeysAgree, OnlyFound, KindsOf, PartFound, StockSoFar, Pipeline.AdvanceRun, KindsFollow;
  }

  lemma SimpleStep(
    s: Store, o: Order, status: Result<ShippingStatus>, d: DeliveryEstimate, checks: seq<Pipeline.Event>, run: Pipeline.Run,
    e: Pipeline.Event)
    requires Waiting(s, o) && Stocked(s, o) && (o.shipmentID == "" || status.Ok?)
    requires Progress(s, o, status, d, checks, run) && IsRead(e, status, d) && e != STOCK
    ensures Progress(s, o, status, d, checks + [e], Pipeline.AdvanceRun(s, run, e))
  {
    assert KindFor(e) in REQUIRED;
    hide Waiting, Stocked, OnlyFound, KindsOf, PartFound, StockSoFar, Pipeline.AdvanceRun, KindFor, IsRead, Least, KindsFollow;
    var kinds := KindsOf(run.parts);
    SimpleKinds(checks, kinds, status, d, e);
    SimpleRead(s, o, status, d, run.stock, run.stockRead, run.parts, e);
    if KindFor(e) in kinds {
      assert kinds + {KindFor(e)} == kinds;
    } else {
      FoundArrives(s, o, status, d, run.parts, KindFor(e));
    }
  }

  lemma CheckStep(
    s: Store, o: Order, status: Result<ShippingStatus>, d: DeliveryEstimate, checks: seq<Pipeline.Event>, run: Pipeline.Run,
    e: Pipeline.Event)
    requires KeysAgree(s) && Waiting(s, o) && Stocked(s, o) && (o.shipmentID == "" || status.Ok?)
    requires Progress(s, o, status, d, checks, run) && IsRead(e, status, d)
    ensures Progress(s, o, status, d, checks + [e], Pipeline.AdvanceRun(s, run, e))
  {
    hide Progress, Waiting, Stocked, KeysAgree, Pipeline.AdvanceRun;
    if e == STOCK { StockStep(s, o, status, d, checks, run); } else { SimpleStep(s, o, status, d, checks, run, e); }
  }

  /** The load and then the given reads. */
  function Loaded(id: string, checks: seq<Pipeline.Event>): seq<Pipeline.Event> { [Pipeline.Load(false, id)] + checks }

  lemma OneMore(digest: Digester, s: Store, events: seq<Pipeline.Event>, run: Pipeline.Run, event: Pipeline.Event)
    requires Pipeline.AdvanceAll(digest, s, events) == Pipeline.World(s, run) && !run.failed && !event.Others?
    ensures Pipeline.AdvanceAll(digest, s, events + [event]) == Pipeline.World(s, Pipeline.AdvanceRun(s, run, event))
  {
    assert (events + [event])[..|events|] == events;
    hide Pipeline.AdvanceRun;
  }

  lemma LoadGoesThrough(digest: Digester, s: Store, o: Order)
    requires Waiting(s, o)
    ensures Pipeline.AdvanceAll(digest, s, [Pipeline.Load(false, o.id)]) == Pipeline.World(s, Checked(o, [], 0, []))
  {
    assert Pipeline.AdvanceAll(digest, s, []) == Pipeline.World(s, Pipeline.NOT_RUN);
    OneMore(digest, s, [], Pipeline.NOT_RUN, Pipeline.Load(false, o.id));
    assert [] + [Pipeline.Load(false, o.id)] == [Pipeline.Load(false, o.id)];
  }

  lemma NoReadsYet(s: Store, o: Order, status: Result<ShippingStatus>, d: DeliveryEstimate)
    requires Waiting(s, o) && Stocked(s, o) && (o.shipmentID == "" || status.Ok?)
    ensures Progress(s, o, status, d, [], Checked(o, [], 0, []))
  {
    hide Waiting, Stocked;
  }

  lemma OneMoreRead(
    digest: Digester, s: Store, o: Order, status: Result<ShippingStatus>, d: DeliveryEstimate, checks: seq<Pipeline.Event>,
    run: Pipeline.Run, e: Pipeline.Event)
    requires KeysAgree(s) && Waiting(s, o) && Stocked(s, o) && (o.shipmentID == "" || status.Ok?)
    requires Pipeline.AdvanceAll(digest, s, Loaded(o.id, checks)) == Pipeline.World(s, run)
    requires Progress(s, o, status, d, checks, run) && IsRead(e, status, d)
    ensures Pipeline.AdvanceAll(digest, s, Loaded(o.id, checks + [e])) == Pipeline.World(s, Pipeline.AdvanceRun(s, run, e))
    ensures Progress(s, o, status, d, checks + [e], Pipeline.AdvanceRun(s, run, e))
  {
    hide Waiting, Stocked, KeysAgree, OnlyFound, KindsFollow, Pipeline.AdvanceAll, Pipeline.AdvanceRun;
    assert !run.failed && !e.Others?;
    assert Loaded(o.id, checks) + [e] == Loaded(o.id, checks + [e]);
    hide Progress, IsRead;
    OneMore(digest, s, Loaded(o.id, checks), run, e);
    CheckStep(s, o, status, d, checks, run, e);
  }

  lemma {:induction false} ReadsProgress(
    digest: Digester, s: Store, o: Order, status: Result<ShippingStatus>, d: DeliveryEstimate, checks: seq<Pipeline.Event>)
    returns (run: Pipeline.Run)
    requires KeysAgree(s) && Waiting(s, o) && Stocked(s, o) && (o.shipmentID == "" || status.Ok?)
    requires forall e | e in checks :: IsRead(e, status, d)
    ensures Pipeline.AdvanceAll(digest, s, Loaded(o.id, checks)) == Pipeline.World(s, run)
    ensures Progress(s, o, status, d, checks, run)
  {
    if checks == [] {
      assert Loaded(o.id, []) == [Pipeline.Load(false, o.id)];
      hide Waiting, Stocked, KeysAgree, Progress, Pipeline.AdvanceAll, Pipeline.AdvanceRun, IsRead, Loaded;
      LoadGoesThrough(digest, s, o);
      NoReadsYet(s, o, status, d);
      run := Checked(o, [], 0, []);
    } else {
      var before, last := checks[..|checks| - 1], checks[|checks| - 1];
      assert forall e | e in before :: e in checks;
      assert before + [last] == checks && IsRead(last, status, d);
      hide Waiting, Stocked, KeysAgree, Progress, Pipeline.AdvanceAll, Pipeline.AdvanceRun, IsRead, Loaded;
      var was := ReadsProgress(digest, s, o, status, d, before);
      OneMoreRead(digest, s, o, status, d, before, was, last);
      run := Pipeline.AdvanceRun(s, was, last);
    }
  }

  // ---------- the evidence and the proposal ----------

  /** The parts of a run whose reads are done. */
  ghost predicate AllFound(s: Store, o: Order, status: Result<ShippingStatus>, d: DeliveryEstimate, parts: seq<Part>)
    requires Waiting(s, o) && Stocked(s, o) && (o.shipmentID == "" || status.Ok?)
  {
    OnlyFound(s, o, status, d, parts) && KindsOf(parts) == REQUIRED
  }

  lemma AllKinds(checks: seq<Pipeline.Event>, kinds: set<Kind>, status: Result<ShippingStatus>, d: DeliveryEstimate)
    requires AllReads(checks, status, d) && KindsFollow(checks, kinds, status, d) && kinds <= REQUIRED
    ensures kinds == REQUIRED
  {
    assert KindFor(PAYMENT) in kinds && KindFor(FULFILMENT) in kinds && KindFor(Shipping(status, d)) in kinds;
  }

  lemma ProgressIsDone(
    s: Store, o: Order, status: Result<ShippingStatus>, d: DeliveryEstimate, checks: seq<Pipeline.Event>, run: Pipeline.Run)
    requires Waiting(s, o) && Stocked(s, o) && (o.shipmentID == "" || status.Ok?) && AllReads(checks, status, d)
    requires Progress(s, o, status, d, checks, run)
    ensures AllFound(s, o, status, d, run.parts) && |run.parts| == 4
    ensures run == Checked(o, run.stock, run.stockRead, run.parts)
  {
    hide Waiting, Stocked, PartFound, StockSoFar, KindsFollow, AllReads, OncePerKind;
    assert KindsOf(run.parts) <= REQUIRED;
    hide KindsOf;
    AllKinds(checks, KindsOf(run.parts), status, d);
    OncePerKindBySize(run.parts);
    assert |REQUIRED| == 4;
  }

  lemma ReadsFindAll(
    digest: Digester, s: Store, o: Order, status: Result<ShippingStatus>, d: DeliveryEstimate, checks: seq<Pipeline.Event>)
    returns (run: Pipeline.Run)
    requires KeysAgree(s) && Waiting(s, o) && Stocked(s, o) && (o.shipmentID == "" || status.Ok?) && AllReads(checks, status, d)
    ensures Pipeline.AdvanceAll(digest, s, Loaded(o.id, checks)) == Pipeline.World(s, run)
    ensures AllFound(s, o, status, d, run.parts) && |run.parts| == 4
    ensures run == Checked(o, run.stock, run.stockRead, run.parts)
  {
    hide KeysAgree, Waiting, Stocked, Pipeline.AdvanceAll, Loaded, Progress, AllFound;
    run := ReadsProgress(digest, s, o, status, d, checks);
    ProgressIsDone(s, o, status, d, checks, run);
  }

  lemma FoundAssemble(s: Store, o: Order, status: Result<ShippingStatus>, d: DeliveryEstimate, parts: seq<Part>)
    requires Waiting(s, o) && Stocked(s, o) && (o.shipmentID == "" || status.Ok?) && AllFound(s, o, status, d, parts)
    ensures var r := Assemble(parts);
            && r.Ok? && r.value.order == o && r.value.payment == s.payments[o.paymentID] && r.value.fulfilment == s.fulfilments[o.id]
            && multiset(r.value.inventory) == multiset([HomeStock(s, o), SydneyStock(s, o)])
            && r.value.deliveryEstimates == [d]
  {
    assert forall p | p in parts :: p.order == o && Usable(p);
    assert FanIn.Complete(parts) by { assert AllUsable(parts); }
    hide Waiting, Stocked, Assemble, InventoryKey, OncePerKind, FanIn.Complete;
    FanIn.OneOrderSucceeds(parts, o);
    FoundShows(s, o, status, d, parts, PaymentKind);
    FoundShows(s, o, status, d, parts, InventoryKind);
    FoundShows(s, o, status, d, parts, FulfilmentKind);
    FoundShows(s, o, status, d, parts, ShippingKind);
    hide OnlyFound, KindsOf, SortBy;
    Single(Assemble(parts).value.deliveryEstimates, d);
  }

  lemma FoundShows(s: Store, o: Order, status: Result<ShippingStatus>, d: DeliveryEstimate, parts: seq<Part>, kind: Kind)
    requires Waiting(s, o) && Stocked(s, o) && (o.shipmentID == "" || status.Ok?) && AllFound(s, o, status, d, parts)
    requires Assemble(parts).Ok? && kind in REQUIRED
    ensures Shows(Assemble(parts).value, PartFound(s, o, status, d, kind))
  {
    assert kind in KindsOf(parts);
    var p :| p in parts && p.kind == kind;
    assert p == PartFound(s, o, status, d, kind);
    hide PartFound, Assemble, Shows, Waiting, Stocked;
    FanIn.PartShown(parts, p);
  }

  lemma Single<T>(xs: seq<T>, x: T)
    requires multiset(xs) == multiset([x])
    ensures xs == [x]
  {
    assert |xs| == |multiset(xs)| == 1;
    assert xs[0] in multiset([x]);
  }

  lemma TwoRecordsSupport(e: Evidence, home: Inventory, sydney: Inventory, d: DeliveryEstimate)
    requires multiset(e.inventory) == multiset([home, sydney]) && e.deliveryEstimates == [d]
    requires home.warehouse != SYDNEY && sydney.warehouse == SYDNEY && d.origin == SYDNEY && e.order.warehouse != SYDNEY
    requires Movable(e) && sydney.sku == e.order.items[0].sku && e.order.items[0].quantity <= sydney.available
    ensures ProposalFor(e, SYDNEY) == Some(SydneyProposal(e.order, d))
  {
    forall x ensures x in e.inventory <==> x == home || x == sydney {
      assert x in multiset(e.inventory) <==> x in multiset([home, sydney]);
    }
    assert Supports(e, SYDNEY);
    ValidatorExact(e, Recommendation("", "", [], None));
  }

  /** The evidence supports the transfer, and its canonical proposal is the one the records call for. */
  lemma EvidenceSupports(s: Store, id: string, status: Result<ShippingStatus>, d: DeliveryEstimate, parts: seq<Part>)
    requires Supported(s, id, status, d) && AllFound(s, s.orders[id], status, d, parts)
    ensures Assemble(parts).Ok? && ProposalFor(Assemble(parts).value, SYDNEY) == Some(SydneyProposal(s.orders[id], d))
  {
    var o := s.orders[id];
    assert s.fulfilments[o.id].state == Blocked;
    InventoryKeyWarehouse(o.items[0].sku, SydneyStock(s, o).warehouse, SYDNEY);
    assert SydneyStock(s, o).warehouse == SYDNEY;
    FoundAssemble(s, o, status, d, parts);
    hide Assemble, WellFormed, InventoryKey, IsBlank, AllFound;
    TwoRecordsSupport(Assemble(parts).value, HomeStock(s, o), SydneyStock(s, o), d);
  }

  // ---------- the run ----------

  /** The whole run, with its reads in the given order and a reasoner that recommends `reply`. */
  function WholeRun(id: string, checks: seq<Pipeline.Event>, reply: Recommendation): seq<Pipeline.Event> {
    Loaded(id, checks) + [Pipeline.OpenBarrier] + [Pipeline.Recommend(Ok(reply))] + [Pipeline.PrepareApproval]
  }

  lemma BarrierGoesThrough(s: Store, read: Pipeline.Run)
    requires read.evidence.None? && |read.parts| == 4 && Assemble(read.parts).Ok?
    ensures Pipeline.AdvanceRun(s, read, Pipeline.OpenBarrier) == read.(evidence := Some(Assemble(read.parts).value))
  {
    hide Assemble;
  }

  lemma ReasonGoesThrough(s: Store, run: Pipeline.Run, reply: Recommendation)
    requires run.evidence.Some? && run.result.None? && Accepts(InvestigationResult(run.evidence.value, reply))
    ensures Pipeline.AdvanceRun(s, run, Pipeline.Recommend(Ok(reply)))
            == run.(result := Some(InvestigationResult(run.evidence.value, reply)))
  {
    ReasonLetsThrough(run.evidence.value, Ok(reply));
    hide Accepts, Reason;
  }

  lemma PrepareGoesThrough(s: Store, run: Pipeline.Run)
    requires run.result.Some? && run.prepared.None? && Accepts(run.result.value)
    ensures var r := run.result.value.recommendation;
            Pipeline.AdvanceRun(s, run, Pipeline.PrepareApproval) == run.(prepared := Some(ApprovalRequest(r.summary, r.proposal.value)))
  {
    hide ProposalFor;
  }

  /** From the barrier to the prepared request. */
  lemma StagesGoThrough(s: Store, read: Pipeline.Run, reply: Recommendation)
    requires read.evidence.None? && read.result.None? && read.prepared.None? && |read.parts| == 4
    requires Assemble(read.parts).Ok? && Accepts(InvestigationResult(Assemble(read.parts).value, reply))
    ensures var e := Assemble(read.parts).value;
            var assembled := read.(evidence := Some(e));
            var reasoned := assembled.(result := Some(InvestigationResult(e, reply)));
            && Pipeline.AdvanceRun(s, read, Pipeline.OpenBarrier) == assembled
            && Pipeline.AdvanceRun(s, assembled, Pipeline.Recommend(Ok(reply))) == reasoned
            && reply.proposal.Some?
            && Pipeline.AdvanceRun(s, reasoned, Pipeline.PrepareApproval)
               == reasoned.(prepared := Some(ApprovalRequest(reply.summary, reply.proposal.value)))
  {
    var e := Assemble(read.parts).value;
    var assembled := read.(evidence := Some(e));
    assert reply.proposal.Some?;
    hide Assemble, Accepts, Pipeline.AdvanceRun;
    BarrierGoesThrough(s, read);
    ReasonGoesThrough(s, assembled, reply);
    PrepareGoesThrough(s, assembled.(result := Some(InvestigationResult(e, reply))));
  }

  lemma RunGoesThrough(digest: Digester, s: Store, events: seq<Pipeline.Event>, read: Pipeline.Run, reply: Recommendation)
    requires Pipeline.AdvanceAll(digest, s, events) == Pipeline.World(s, read) && !read.failed
    requires var assembled := Pipeline.AdvanceRun(s, read, Pipeline.OpenBarrier);
             !assembled.failed && !Pipeline.AdvanceRun(s, assembled, Pipeline.Recommend(Ok(reply))).failed
    ensures var assembled := Pipeline.AdvanceRun(s, read, Pipeline.OpenBarrier);
            var reasoned := Pipeline.AdvanceRun(s, assembled, Pipeline.Recommend(Ok(reply)));
            Pipeline.AdvanceAll(digest, s, events + [Pipeline.OpenBarrier] + [Pipeline.Recommend(Ok(reply))] + [Pipeline.PrepareApproval])
              == Pipeline.World(s, Pipeline.AdvanceRun(s, reasoned, Pipeline.PrepareApproval))
  {
    var assembled := Pipeline.AdvanceRun(s, read, Pipeline.OpenBarrier);
    var reasoned := Pipeline.AdvanceRun(s, assembled, Pipeline.Recommend(Ok(reply)));
    hide Pipeline.AdvanceAll, Pipeline.AdvanceRun;
    OneMore(digest, s, events, read, Pipeline.OpenBarrier);
    OneMore(digest, s, events + [Pipeline.OpenBarrier], assembled, Pipeline.Recommend(Ok(reply)));
    OneMore(digest, s, events + [Pipeline.OpenBarrier] + [Pipeline.Recommend(Ok(reply))], reasoned, Pipeline.PrepareApproval);
  }

  /** From every store whose records support it, and if the reasoner recommends it, a run that
      nothing disturbs prepares the transfer to Sydney, in whatever order its checks read, and has
      changed nothing. */
  lemma UndisturbedRunPrepares(
    digest: Digester, s: Store, id: string, status: Result<ShippingStatus>, d: DeliveryEstimate,
    checks: seq<Pipeline.Event>, reply: Recommendation)
    requires Supported(s, id, status, d) && AllReads(checks, status, d)
    requires reply.proposedAction == TRANSFER_ACTION && reply.proposal == Some(SydneyProposal(s.orders[id], d))
    ensures var w := Pipeline.AdvanceAll(digest, s, WholeRun(id, checks, reply));
            w.store == s && w.run.prepared == Some(ApprovalRequest(reply.summary, SydneyProposal(s.orders[id], d)))
  {
    var o := s.orders[id];
    assert o.id == id && KeysAgree(s);
    hide KeysAgree, Waiting, Stocked, AllFound, AllReads, Loaded, Assemble, ProposalFor, SydneyProposal, Pipeline.AdvanceAll;
    var read := ReadsFindAll(digest, s, o, status, d, checks);
    EvidenceSupports(s, id, status, d, read.parts);
    hide Supported;
    StagesGoThrough(s, read, reply);
    RunGoesThrough(digest, s, Loaded(id, checks), read, reply);
    hide Pipeline.AdvanceRun;
  }

  // ---------- a prepared request shows a supported store ----------

  /** The events of a run that nothing disturbs, in any order and number. */
  predicate IsRunEvent(
    e: Pipeline.Event, id: string, status: Result<ShippingStatus>, d: DeliveryEstimate, reply: Recommendation)
  {
    || e == Pipeline.Load(false, id) || IsRead(e, status, d)
    || e == Pipeline.OpenBarrier || e == Pipeline.Recommend(Ok(reply)) || e == Pipeline.PrepareApproval
  }

  /** The first stock read finds the record for the order's own warehouse. */
  ghost predicate HomeFound(s: Store, o: Order) {
    && o.items != [] && !IsBlank(o.items[0].sku) && !IsBlank(o.warehouse)
    && InventoryKey(o.items[0].sku, o.warehouse) in s.inventory
  }

  ghost predicate HomeRead(s: Store, o: Order, xs: seq<Inventory>) { HomeFound(s, o) && xs == [HomeStock(s, o)] }

  /** What both reads have found; a first record that answers for Sydney leaves out the second. */
  ghost predicate BothRead(s: Store, o: Order, xs: seq<Inventory>) {
    && HomeFound(s, o)
    && if HomeStock(s, o).warehouse == SYDNEY then xs == [HomeStock(s, o)]
       else InventoryKey(o.items[0].sku, SYDNEY) in s.inventory && xs == [HomeStock(s, o), SydneyStock(s, o)]
  }

  ghost predicate PartShows(s: Store, o: Order, status: Result<ShippingStatus>, d: DeliveryEstimate, p: Part) {
    && p.order == o
    && match p.kind
       case PaymentKind => !IsBlank(o.paymentID) && o.paymentID in s.payments && p.payment == Some(s.payments[o.paymentID])
       case FulfilmentKind => o.id in s.fulfilments && p.fulfilment == Some(s.fulfilments[o.id])
       case InventoryKind => BothRead(s, o, p.inventory)
       case ShippingKind => (o.shipmentID == "" || status.Ok?) && p.deliveryEstimates == [d]
       case OtherKind(_) => false
  }

  ghost predicate PartsShow(s: Store, o: Order, status: Result<ShippingStatus>, d: DeliveryEstimate, parts: seq<Part>) {
    forall p | p in parts :: PartShows(s, o, status, d, p)
  }

  ghost predicate StockShows(s: Store, o: Order, stock: seq<Inventory>, stockRead: nat) {
    && stockRead <= 2
    && (stockRead == 0 ==> stock == []) && (stockRead == 1 ==> HomeRead(s, o, stock)) && (stockRead == 2 ==> BothRead(s, o, stock))
  }

  /** Whatever the run holds, it holds of the store. */
  ghost predicate RunShows(
    s: Store, id: string, status: Result<ShippingStatus>, d: DeliveryEstimate, reply: Recommendation, run: Pipeline.Run)
  {
    && (run.order.None? ==> run == Pipeline.NOT_RUN || run == Pipeline.NOT_RUN.(failed := true))
    && (run.order.Some? ==>
          && !IsBlank(id) && id in s.orders && run.order.value == s.orders[id]
          && PartsShow(s, s.orders[id], status, d, run.parts)
          && StockShows(s, s.orders[id], run.stock, run.stockRead))
    && (run.evidence.Some? ==> Assemble(run.parts) == Ok(run.evidence.value))
    && (run.result.Some? ==> run.evidence.Some? && run.result.value == InvestigationResult(run.evidence.value, reply))
    && (run.prepared.Some? ==>
          run.result.Some? && Accepts(run.result.value)
          && run.prepared.value == ApprovalRequest(reply.summary, reply.proposal.value))
  }

  lemma LoadShows(s: Store, id: string, status: Result<ShippingStatus>, d: DeliveryEstimate, reply: Recommendation, run: Pipeline.Run)
    requires RunShows(s, id, status, d, reply, run) && !run.failed
    ensures RunShows(s, id, status, d, reply, Pipeline.AdvanceRun(s, run, Pipeline.Load(false, id)))
  {
    hide IsBlank, Assemble, Accepts;
  }

  lemma ArrivalShows(
    s: Store, id: string, status: Result<ShippingStatus>, d: DeliveryEstimate, reply: Recommendation, run: Pipeline.Run,
    part: Result<Part>)
    requires RunShows(s, id, status, d, reply, run) && run.order.Some? && run.evidence.None?
    requires part.Ok? ==> PartShows(s, run.order.value, status, d, part.value)
    ensures RunShows(s, id, status, d, reply, Pipeline.Arrive(run, part))
  {
    hide IsBlank, Assemble, Accepts, PartShows, StockShows;
  }

  lemma CheckShows(
    s: Store, id: string, status: Result<ShippingStatus>, d: DeliveryEstimate, reply: Recommendation, run: Pipeline.Run, e: Pipeline.Event)
    requires RunShows(s, id, status, d, reply, run) && IsRead(e, status, d) && e != STOCK
    ensures RunShows(s, id, status, d, reply, Pipeline.AdvanceRun(s, run, e))
  {
    hide KindsOf, IsBlank, RunShows, StockShows, PartsShow;
    if Pipeline.Checking(run, KindFor(e)) {
      var o := run.order.value;
      var part := match e
        case ReadPayment(c) => CheckPayment(View(s, c), o)
        case ReadFulfilment(c) => CheckFulfilment(View(s, c), o)
        case _ => CheckShipping(o, status, Ok(d));
      assert part.Ok? ==> PartShows(s, o, status, d, part.value);
      ArrivalShows(s, id, status, d, reply, run, part);
    }
  }

  lemma FirstStockShows(s: Store, o: Order)
    requires o.items != []
    ensures var r := ReadStock(View(s, false), o, [], o.warehouse); r.Ok? ==> HomeRead(s, o, r.value)
  {
    hide IsBlank, InventoryKey;
  }

  lemma SecondStockShows(s: Store, o: Order, stock: seq<Inventory>)
    requires HomeRead(s, o, stock)
    ensures var r := ReadStock(View(s, false), o, stock, SYDNEY); r.Ok? ==> BothRead(s, o, r.value)
  {
    var r := ReadStock(View(s, false), o, stock, SYDNEY);
    if HomeStock(s, o).warehouse == SYDNEY {
      assert stock[0].warehouse == SYDNEY && r == Ok(stock);
    } else if r.Ok? {
      assert r.value == stock + [SydneyStock(s, o)];
      assert r.value == [HomeStock(s, o), SydneyStock(s, o)];
    }
    hide IsBlank, InventoryKey;
  }

  lemma StockReadShows(s: Store, id: string, status: Result<ShippingStatus>, d: DeliveryEstimate, reply: Recommendation, run: Pipeline.Run)
    requires RunShows(s, id, status, d, reply, run)
    ensures RunShows(s, id, status, d, reply, Pipeline.AdvanceRun(s, run, STOCK))
  {
    hide KindsOf, IsBlank, PartsShow, HomeRead, BothRead, ReadStock, Assemble, Accepts;
    if Pipeline.Checking(run, InventoryKind) && run.stockRead < 2 && run.order.value.items != [] {
      var o := run.order.value;
      if run.stockRead == 0 {
        FirstStockShows(s, o);
      } else {
        SecondStockShows(s, o, run.stock);
        var r := ReadStock(View(s, false), o, run.stock, SYDNEY);
        if r.Ok? {
          var read := run.(stock := r.value, stockRead := 2);
          assert RunShows(s, id, status, d, reply, read);
          ArrivalShows(s, id, status, d, reply, read, Ok(InventoryPart(o, r.value)));
        }
      }
    }
  }

  lemma StagesShow(
    s: Store, id: string, status: Result<ShippingStatus>, d: DeliveryEstimate, reply: Recommendation, run: Pipeline.Run, e: Pipeline.Event)
    requires RunShows(s, id, status, d, reply, run)
    requires e == Pipeline.OpenBarrier || e == Pipeline.Recommend(Ok(reply)) || e == Pipeline.PrepareApproval
    ensures RunShows(s, id, status, d, reply, Pipeline.AdvanceRun(s, run, e))
  {
    if run.evidence.Some? { ReasonLetsThrough(run.evidence.value, Ok(reply)); }
    hide IsBlank, PartsShow, StockShows, Assemble, ProposalFor, Reason;
  }

  lemma {:induction false} RunAlwaysShows(
    digest: Digester, s: Store, id: string, status: Result<ShippingStatus>, d: DeliveryEstimate, reply: Recommendation,
    events: seq<Pipeline.Event>)
    requires forall e | e in events :: IsRunEvent(e, id, status, d, reply)
    ensures var w := Pipeline.AdvanceAll(digest, s, events); w.store == s && RunShows(s, id, status, d, reply, w.run)
  {
    if events != [] {
      var before, e := events[..|events| - 1], events[|events| - 1];
      assert (forall x | x in before :: x in events) && IsRunEvent(e, id, status, d, reply);
      RunAlwaysShows(digest, s, id, status, d, reply, before);
      var run := Pipeline.AdvanceAll(digest, s, before).run;
      hide RunShows, Pipeline.AdvanceRun;
      if !run.failed {
        if e == Pipeline.Load(false, id) { LoadShows(s, id, status, d, reply, run); }
        else if e == STOCK { StockReadShows(s, id, status, d, reply, run); }
        else if IsRead(e, status, d) { CheckShows(s, id, status, d, reply, run, e); }
        else { StagesShow(s, id, status, d, reply, run, e); }
      }
    }
  }

  /** What assembled evidence says of the store. */
  lemma EvidenceShows(s: Store, o: Order, status: Result<ShippingStatus>, d: DeliveryEstimate, parts: seq<Part>)
    requires PartsShow(s, o, status, d, parts) && Assemble(parts).Ok?
    ensures var e := Assemble(parts).value;
            && e.order == o && e.deliveryEstimates == [d] && (o.shipmentID == "" || status.Ok?)
            && !IsBlank(o.paymentID) && o.paymentID in s.payments && e.payment == s.payments[o.paymentID]
            && o.id in s.fulfilments && e.fulfilment == s.fulfilments[o.id]
            && exists xs :: BothRead(s, o, xs) && multiset(e.inventory) == multiset(xs)
  {
    assert forall p | p in parts :: PartShows(s, o, status, d, p) && p.order == o;
    AssembledOrder(parts, o);
    hide Assemble, IsBlank, PartsShow, BothRead, SortBy;
    var payment := AssembledShows(parts, PaymentKind);
    var stock := AssembledShows(parts, InventoryKind);
    var fulfilment := AssembledShows(parts, FulfilmentKind);
    var shipping := AssembledShows(parts, ShippingKind);
    assert PartShows(s, o, status, d, payment) && PartShows(s, o, status, d, stock);
    assert PartShows(s, o, status, d, fulfilment) && PartShows(s, o, status, d, shipping);
    assert BothRead(s, o, stock.inventory);
    Single(Assemble(parts).value.deliveryEstimates, d);
  }

  /** The record an accepted proposal relies on is the one for Sydney. */
  lemma AcceptedStock(s: Store, o: Order, xs: seq<Inventory>, x: Inventory, to: string)
    requires KeysAgree(s) && BothRead(s, o, xs) && x in xs && x.sku == o.items[0].sku && x.warehouse == to != o.warehouse
    ensures to == SYDNEY && HomeStock(s, o).warehouse != SYDNEY
    ensures InventoryKey(o.items[0].sku, SYDNEY) in s.inventory && x == SydneyStock(s, o)
  {
    var sku := o.items[0].sku;
    InventoryKeyWarehouse(sku, HomeStock(s, o).warehouse, o.warehouse);
    if InventoryKey(sku, SYDNEY) in s.inventory { InventoryKeyWarehouse(sku, SydneyStock(s, o).warehouse, SYDNEY); }
    assert x != HomeStock(s, o);
    hide InventoryKey, IsBlank;
  }

  lemma AcceptedIsStocked(s: Store, o: Order, e: Evidence, p: Proposal)
    requires KeysAgree(s) && e.order == o && |o.items| == 1 && o.items[0] == Item(p.sku, p.quantity) && p.toWarehouse != o.warehouse
    requires exists xs :: BothRead(s, o, xs) && multiset(e.inventory) == multiset(xs)
    requires exists x :: x in e.inventory && x.warehouse == p.toWarehouse && x.sku == p.sku && x.available >= p.quantity
    ensures p.toWarehouse == SYDNEY && !IsBlank(p.sku) && !IsBlank(o.warehouse) && Stocked(s, o)
  {
    var xs :| BothRead(s, o, xs) && multiset(e.inventory) == multiset(xs);
    var x :| x in e.inventory && x.warehouse == p.toWarehouse && x.sku == p.sku && x.available >= p.quantity;
    assert x in multiset(xs);
    hide IsBlank, InventoryKey, KeysAgree;
    AcceptedStock(s, o, xs, x, p.toWarehouse);
  }

  lemma AcceptedShowsSupport(
    s: Store, id: string, status: Result<ShippingStatus>, d: DeliveryEstimate, parts: seq<Part>, reply: Recommendation)
    requires WellFormed(s) && !IsBlank(id) && id in s.orders && PartsShow(s, s.orders[id], status, d, parts)
    requires Assemble(parts).Ok? && Accepts(InvestigationResult(Assemble(parts).value, reply))
    ensures Supported(s, id, status, d) && reply.proposal == Some(SydneyProposal(s.orders[id], d))
  {
    var o, e, p := s.orders[id], Assemble(parts).value, reply.proposal.value;
    assert KeysAgree(s) && o.id == id;
    hide Assemble, IsBlank, InventoryKey, PartsShow, Accepts, BothRead, WellFormed, KeysAgree;
    EvidenceShows(s, o, status, d, parts);
    AcceptedMeans(InvestigationResult(e, reply));
    AcceptedEstimate(e, reply, d);
    AcceptedIsStocked(s, o, e, p);
    hide Stocked;
  }

  lemma AcceptedEstimate(e: Evidence, reply: Recommendation, d: DeliveryEstimate)
    requires Accepts(InvestigationResult(e, reply)) && e.deliveryEstimates == [d]
    ensures reply.proposedAction == TRANSFER_ACTION && reply.proposal.Some?
    ensures var p := reply.proposal.value;
            && p.toWarehouse == d.origin && p.additionalDays == d.additionalDays
            && p.additionalCostCents == d.additionalCostCents && p.currency == d.currency
  {
    assert FindEstimate(e.deliveryEstimates[1..], reply.proposal.value.toWarehouse) == None;
  }

  /** However its events come, a run that nothing disturbs prepares nothing but the transfer of a
      supported order to Sydney. */
  lemma PreparedShowsSupport(
    digest: Digester, s: Store, id: string, status: Result<ShippingStatus>, d: DeliveryEstimate, reply: Recommendation,
    events: seq<Pipeline.Event>)
    requires WellFormed(s) && (forall e | e in events :: IsRunEvent(e, id, status, d, reply))
    requires Pipeline.AdvanceAll(digest, s, events).run.prepared.Some?
    ensures Supported(s, id, status, d)
    ensures reply.proposedAction == TRANSFER_ACTION && reply.proposal == Some(SydneyProposal(s.orders[id], d))
    ensures Pipeline.AdvanceAll(digest, s, events).run.prepared.value == ApprovalRequest(reply.summary, SydneyProposal(s.orders[id], d))
  {
    RunAlwaysShows(digest, s, id, status, d, reply, events);
    var run := Pipeline.AdvanceAll(digest, s, events).run;
    assert run.order.Some?;
    assert reply.proposedAction == TRANSFER_ACTION;
    hide Pipeline.AdvanceAll, Assemble, IsBlank, PartsShow, StockShows, Supported, WellFormed, SydneyProposal, ProposalFor;
    AcceptedShowsSupport(s, id, status, d, run.parts, reply);
  }

  /** A run that nothing disturbs prepares a request exactly if the store and the shipping service
      support moving the order to Sydney and the reasoner recommends just that transfer. */
  lemma UndisturbedRunPreparesExactly(
    digest: Digester, s: Store, id: string, status: Result<ShippingStatus>, d: DeliveryEstimate,
    checks: seq<Pipeline.Event>, reply: Recommendation)
    requires WellFormed(s) && AllReads(checks, status, d)
    ensures Pipeline.AdvanceAll(digest, s, WholeRun(id, checks, reply)).run.prepared.Some? <==>
              Supported(s, id, status, d)
              && reply.proposedAction == TRANSFER_ACTION && reply.proposal == Some(SydneyProposal(s.orders[id], d))
  {
    var events := WholeRun(id, checks, reply);
    assert forall e | e in events :: IsRunEvent(e, id, status, d, reply);
    hide Pipeline.AdvanceAll, WholeRun, AllReads, Supported, WellFormed, SydneyProposal, IsRunEvent;
    if Pipeline.AdvanceAll(digest, s, events).run.prepared.Some? {
      PreparedShowsSupport(digest, s, id, status, d, reply, events);
    } else if Supported(s, id, status, d) && id in s.orders && |s.orders[id].items| > 0
              && reply.proposedAction == TRANSFER_ACTION && reply.proposal == Some(SydneyProposal(s.orders[id], d)) {
      UndisturbedRunPrepares(digest, s, id, status, d, checks, reply);
    }
  }

  // ---------- the whole resolution ----------


  function Works(events: seq<Pipeline.Event>): seq<R.Event> {
    if events == [] then [] else Works(events[..|events| - 1]) + [R.Work(events[|events| - 1])]
  }

  lemma {:induction false} WorksAdvance(digest: Digester, s: Store, events: seq<Pipeline.Event>)
    requires forall e | e in events :: !e.Others?
    ensures R.After(digest, R.Begin(s), Works(events)) == R.Begin(s).(world := Pipeline.AdvanceAll(digest, s, events))
  {
    if events != [] {
      var n := |events| - 1;
      WorksAdvance(digest, s, events[..n]);
      R.AfterSnoc(digest, R.Begin(s), Works(events[..n]), R.Work(events[n]));
      assert !events[n].Others?;
      hide R.After, Pipeline.Advance;
    }
  }

  /** Posting the request, pausing and saving the manifest. */
  function Pausing(rid: string, q: ApprovalRequest, c: CheckpointInfo): seq<R.Event> {
    [R.Post(rid), R.StartHalts([RequestInfo(rid, Some(q), Delivered), SuperStepCompleted(true, Some(c))], true), R.Write(true)]
    + ([R.Write(true)] + [R.Write(true)])
  }

  function Paused(rid: string, q: ApprovalRequest, c: CheckpointInfo): PausedRun {
    PausedRun(c.sessionID, c, rid, q, false, None)
  }

  lemma StreamIsSaved(rid: string, q: ApprovalRequest, c: CheckpointInfo)
    requires rid != "" && c.sessionID != "" && c.checkpointID != ""
    ensures StartSaves([RequestInfo(rid, Some(q), Delivered), SuperStepCompleted(true, Some(c))], true) == Some(Paused(rid, q, c))
    ensures R.OnlyPosted(Some(R.Posted(rid, q)), [RequestInfo(rid, Some(q), Delivered), SuperStepCompleted(true, Some(c))])
  {
    var stream := [RequestInfo(rid, Some(q), Delivered), SuperStepCompleted(true, Some(c))];
    assert stream[..0] == [] && stream[..2] == stream && stream[..1] == [stream[0]];
    StartNext(stream, 0);
    StartNext(stream, 1);
  }

  lemma PostsAndHalts(digest: Digester, p: R.State, rid: string, q: ApprovalRequest, c: CheckpointInfo)
    requires rid != "" && c.sessionID != "" && c.checkpointID != ""
    requires p.world.run.prepared == Some(q) && p.posted.None? && !p.started
    ensures var stream := [RequestInfo(rid, Some(q), Delivered), SuperStepCompleted(true, Some(c))];
            R.Next(digest, R.Next(digest, p, R.Post(rid)), R.StartHalts(stream, true))
              == p.(posted := Some(R.Posted(rid, q)), started := true, attempt := R.Writing(Paused(rid, q, c), ToOpen))
  {
    StreamIsSaved(rid, q, c);
    hide StartSaves, R.OnlyPosted, Pipeline.Advance;
  }

  lemma PauseIsWritten(digest: Digester, p: R.State, m: PausedRun)
    requires p.attempt == R.Writing(m, ToOpen) && m.result.None?
    ensures var w := R.Write(true);
            R.Next(digest, R.Next(digest, R.Next(digest, p, w), w), w) == p.(disk := Disk(Some(Whole(m)), None), attempt := R.Idle)
  {
  }

  lemma PausesDurably(digest: Digester, p: R.State, rid: string, q: ApprovalRequest, c: CheckpointInfo)
    requires rid != "" && c.sessionID != "" && c.checkpointID != ""
    requires p.world.run.prepared == Some(q) && p.posted.None? && !p.started
    ensures R.After(digest, p, Pausing(rid, q, c))
            == p.(posted := Some(R.Posted(rid, q)), started := true, attempt := R.Idle, disk := Disk(Some(Whole(Paused(rid, q, c))), None))
  {
    var stream := [RequestInfo(rid, Some(q), Delivered), SuperStepCompleted(true, Some(c))];
    var w := R.Write(true);
    var first := [R.Post(rid), R.StartHalts(stream, true), w];
    assert first + [w] + [w] == Pausing(rid, q, c);
    hide R.After, R.Next, Pausing;
    R.AfterThree(digest, p, first[0], first[1], first[2]);
    R.AfterSnoc(digest, p, first, w);
    R.AfterSnoc(digest, p, first + [w], w);
    PostsAndHalts(digest, p, rid, q, c);
    PauseIsWritten(digest, R.Next(digest, R.Next(digest, p, first[0]), first[1]), Paused(rid, q, c));
  }

  function Approving(rid: string, q: ApprovalRequest, c: CheckpointInfo, who: Operator, r: ResolutionResult): seq<R.Event> {
    Pausing(rid, q, c) + (R.Answered(Paused(rid, q, c), who) + R.Concluded(r))
  }

  /** From the prepared request to the saved result. */
  lemma ApprovalCompletes(
    digest: Digester, p: R.State, rid: string, q: ApprovalRequest, c: CheckpointInfo, who: Operator, t: Store, r: ResolutionResult)
    requires rid != "" && c.sessionID != "" && c.checkpointID != "" && R.MayAnswer(who)
    requires p.world.run.prepared == Some(q) && p.posted.None? && !p.started && p.disk == Disk(None, None)
    requires Gate(digest, p.world.store, Some(q), DecisionFor(digest, who, rid, q), false) == (t, Ok(r))
    ensures var end := R.After(digest, p, Approving(rid, q, c, who, r));
            && end.attempt == R.Returned(r) && end.world.store == t
            && end.disk == Disk(Some(Whole(R.Finished(Paused(rid, q, c), r))), None)
  {
    PausesDurably(digest, p, rid, q, c);
    var paused := R.After(digest, p, Pausing(rid, q, c));
    R.AfterSplit(digest, p, Pausing(rid, q, c), R.Answered(Paused(rid, q, c), who) + R.Concluded(r));
    hide Gate, R.After, R.Answered, R.Concluded, Pausing, DecisionFor, R.MayAnswer;
    R.AttemptGoesThrough(digest, paused, Paused(rid, q, c), who);
  }

  // ---------- the transfer itself ----------

  /** The order, its fulfilment and the Sydney stock have changed, and no other record. */
  ghost predicate OnlyMoved(s: Store, t: Store, o: Order)
    requires o.items != [] && InventoryKey(o.items[0].sku, SYDNEY) in s.inventory
    requires 0 < o.items[0].quantity <= SydneyStock(s, o).available
  {
    && t.orders == s.orders[o.id := MovedOrder(o, SYDNEY)]
    && t.fulfilments == s.fulfilments[o.id := Fulfilment(o.id, SYDNEY, Ready)]
    && t.inventory == s.inventory[InventoryKey(o.items[0].sku, SYDNEY) := Drawn(SydneyStock(s, o), o.items[0].quantity)]
    && t.payments == s.payments
  }

  function Resolved(o: Order): ResolutionResult {
    ResolutionResult(TRANSFERRED, Some(TransferResult(MovedOrder(o, SYDNEY), DEFAULT_KEY, false)))
  }

  lemma SupportedIsFresh(
    digest: Digester, s: Store, id: string, status: Result<ShippingStatus>, est: DeliveryEstimate, q: ApprovalRequest, d: Decision)
    requires Supported(s, id, status, est) && LedgerOfOriginals(s) && DEFAULT_KEY !in s.transfers
    requires s.orders[id].items[0].quantity > 0 && s.orders[id].version > 0
    requires q.proposal == SydneyProposal(s.orders[id], est)
    requires d.approved && d.actor != "" && TRANSFER_PERMISSION in d.permissions && d.proposalDigest == digest(q.proposal)
    ensures IsFresh(Transfer(digest, s, GateCall(q, d, false)).1)
  {
    var o, call := s.orders[id], GateCall(q, d, false);
    Pipeline.DefaultKeyNotBlank();
    assert o.items == [Item(q.proposal.sku, q.proposal.quantity)];
    assert ValidCommand(call.command);
    assert Transferable(s, q.proposal);
    hide Supported, Transferable, ValidCommand, Transfer, IsBlank;
    TransferExactly(digest, s, call);
  }

  /** A fresh move of the order to Sydney, as equations between maps. */
  lemma FreshMovesOnly(digest: Digester, s: Store, call: Call, o: Order)
    requires WellFormed(s) && LedgerOfOriginals(s) && IsFresh(Transfer(digest, s, call).1)
    requires var p := call.command.proposal;
             o.id == p.orderID && o.id in s.orders && s.orders[o.id] == o && o.version == p.expectedOrderVersion
             && o.items == [Item(p.sku, p.quantity)] && p.toWarehouse == SYDNEY
    ensures var (t, r) := Transfer(digest, s, call);
            && InventoryKey(o.items[0].sku, SYDNEY) in s.inventory && 0 < o.items[0].quantity <= SydneyStock(s, o).available
            && OnlyMoved(s, t, o) && r == Ok(TransferResult(MovedOrder(o, SYDNEY), call.command.key, false))
  {
    FreshMaps(digest, s, call);
    assert s.fulfilments[o.id].orderID == o.id;
    hide Transfer, WellFormed, InventoryKey, MovedOrder;
  }

  lemma GateGoesThrough(
    digest: Digester, s: Store, id: string, status: Result<ShippingStatus>, est: DeliveryEstimate, q: ApprovalRequest, d: Decision)
    requires Supported(s, id, status, est) && LedgerOfOriginals(s) && DEFAULT_KEY !in s.transfers
    requires s.orders[id].items[0].quantity > 0 && s.orders[id].version > 0
    requires q.proposal == SydneyProposal(s.orders[id], est)
    requires d.approved && d.actor != "" && TRANSFER_PERMISSION in d.permissions && d.proposalDigest == digest(q.proposal)
    ensures var (t, r) := Gate(digest, s, Some(q), d, false);
            r == Ok(Resolved(s.orders[id])) && OnlyMoved(s, t, s.orders[id])
  {
    SupportedIsFresh(digest, s, id, status, est, q, d);
    assert WellFormed(s) && s.orders[id].id == id;
    hide Transfer, Supported, WellFormed, IsBlank, InventoryKey, LedgerOfOriginals, Gate;
    FreshMovesOnly(digest, s, GateCall(q, d, false), s.orders[id]);
    GateTransfers(digest, s, Some(q), d, false);
  }

  /** The validator lets a quantity or version through that the service refuses: the run prepares
      the request, and the approved gate answers that it is invalid exactly if one of the two is
      not positive. */
  lemma NotPositiveIsPreparedAndRefused(
    digest: Digester, s: Store, id: string, status: Result<ShippingStatus>, est: DeliveryEstimate,
    checks: seq<Pipeline.Event>, reply: Recommendation, d: Decision)
    requires Supported(s, id, status, est) && AllReads(checks, status, est)
    requires reply.proposedAction == TRANSFER_ACTION && reply.proposal == Some(SydneyProposal(s.orders[id], est))
    requires d.approved && d.proposalDigest == digest(SydneyProposal(s.orders[id], est))
    ensures var w := Pipeline.AdvanceAll(digest, s, WholeRun(id, checks, reply));
            && w.store == s && w.run.prepared == Some(ApprovalRequest(reply.summary, SydneyProposal(s.orders[id], est)))
            && (Gate(digest, s, w.run.prepared, d, false).1 == Err(InvalidArgument) <==>
                  s.orders[id].items[0].quantity <= 0 || s.orders[id].version <= 0)
  {
    var q := ApprovalRequest(reply.summary, SydneyProposal(s.orders[id], est));
    var call := GateCall(q, d, false);
    UndisturbedRunPrepares(digest, s, id, status, est, checks, reply);
    Pipeline.DefaultKeyNotBlank();
    assert ValidCommand(call.command) <==> q.proposal.quantity > 0 && q.proposal.expectedOrderVersion > 0;
    RefusalsExactly(digest, s, call);
    GateTransfers(digest, s, Some(q), d, false);
    hide Gate, Transfer, Supported, AllReads, IsBlank, ValidCommand, Transferable, Pipeline.AdvanceAll, WholeRun;
  }

  // ---------- the two ends of a resolution ----------

  /** From the first read to the saved result. */
  function Resolving(
    id: string, checks: seq<Pipeline.Event>, reply: Recommendation, rid: string, q: ApprovalRequest, c: CheckpointInfo,
    who: Operator, r: ResolutionResult): seq<R.Event>
  {
    Works(WholeRun(id, checks, reply)) + Approving(rid, q, c, who, r)
  }

  /** The same up to an approval that is stopped before the manifest is written, and a rejection after it. */
  function ResolvingTwice(
    id: string, checks: seq<Pipeline.Event>, reply: Recommendation, rid: string, q: ApprovalRequest, c: CheckpointInfo,
    approver: Operator, other: Operator): seq<R.Event>
  {
    Works(WholeRun(id, checks, reply)) + ApprovingTwice(rid, q, c, approver, other)
  }

  function ApprovingTwice(rid: string, q: ApprovalRequest, c: CheckpointInfo, approver: Operator, other: Operator): seq<R.Event> {
    var m := Paused(rid, q, c);
    Pausing(rid, q, c) + (R.Answered(m, approver) + [R.Stop] + (R.Answered(m, other) + R.Concluded(REJECTED)))
  }

  lemma ReadsAreAlone(id: string, checks: seq<Pipeline.Event>, reply: Recommendation, status: Result<ShippingStatus>, d: DeliveryEstimate)
    requires AllReads(checks, status, d)
    ensures forall e | e in WholeRun(id, checks, reply) :: !e.Others?
  {
    assert forall e | e in checks :: !e.Others?;
  }

  /** The protocol when the run has prepared its request. */
  lemma RunIsReady(
    digest: Digester, s: Store, id: string, status: Result<ShippingStatus>, d: DeliveryEstimate,
    checks: seq<Pipeline.Event>, reply: Recommendation) returns (ready: R.State)
    requires Supported(s, id, status, d) && AllReads(checks, status, d)
    requires reply.proposedAction == TRANSFER_ACTION && reply.proposal == Some(SydneyProposal(s.orders[id], d))
    ensures ready == R.After(digest, R.Begin(s), Works(WholeRun(id, checks, reply)))
    ensures ready == R.Begin(s).(world := ready.world) && ready.world.store == s
    ensures ready.world.run.prepared == Some(ApprovalRequest(reply.summary, SydneyProposal(s.orders[id], d)))
  {
    ready := R.After(digest, R.Begin(s), Works(WholeRun(id, checks, reply)));
    UndisturbedRunPrepares(digest, s, id, status, d, checks, reply);
    ReadsAreAlone(id, checks, reply, status, d);
    hide Supported, AllReads, WholeRun, R.After, Pipeline.AdvanceAll;
    WorksAdvance(digest, s, WholeRun(id, checks, reply));
  }

  /** From every store whose records support it, whose stock and version are as the service demands
      and whose key is unused, and in whatever order the checks read, the resolution of the order
      ends with the order moved to Sydney, the stock drawn there, nothing else changed, and a saved
      manifest and a returned result that report that transfer. */
  lemma ResolutionCompletes(
    digest: Digester, s: Store, id: string, status: Result<ShippingStatus>, d: DeliveryEstimate,
    checks: seq<Pipeline.Event>, reply: Recommendation, rid: string, c: CheckpointInfo, who: Operator)
    requires Supported(s, id, status, d) && LedgerOfOriginals(s) && DEFAULT_KEY !in s.transfers && AllReads(checks, status, d)
    requires s.orders[id].items[0].quantity > 0 && s.orders[id].version > 0
    requires reply.proposedAction == TRANSFER_ACTION && reply.proposal == Some(SydneyProposal(s.orders[id], d))
    requires rid != "" && c.sessionID != "" && c.checkpointID != ""
    requires who.approved && !IsBlank(who.actor) && TRANSFER_PERMISSION in who.permissions
    ensures var o := s.orders[id];
            var q := ApprovalRequest(reply.summary, SydneyProposal(o, d));
            var end := R.After(digest, R.Begin(s), Resolving(id, checks, reply, rid, q, c, who, Resolved(o)));
            && end.attempt == R.Returned(Resolved(o))
            && end.disk == Disk(Some(Whole(R.Finished(Paused(rid, q, c), Resolved(o)))), None)
            && OnlyMoved(s, end.world.store, o)
  {
    var o := s.orders[id];
    var q := ApprovalRequest(reply.summary, SydneyProposal(o, d));
    GateGoesThrough(digest, s, id, status, d, q, DecisionFor(digest, who, rid, q));
    var t := Gate(digest, s, Some(q), DecisionFor(digest, who, rid, q), false).0;
    hide OnlyMoved, Resolved, LedgerOfOriginals, Works, WholeRun, Supported, Gate, R.After, Approving, IsBlank, InventoryKey, AllReads;
    var ready := RunIsReady(digest, s, id, status, d, checks, reply);
    ApprovalCompletes(digest, ready, rid, q, c, who, t, Resolved(o));
    R.AfterSplit(digest, R.Begin(s), Works(WholeRun(id, checks, reply)), Approving(rid, q, c, who, Resolved(o)));
  }

  lemma StoppedThenRejected(
    digest: Digester, p: R.State, rid: string, q: ApprovalRequest, c: CheckpointInfo, approver: Operator, other: Operator)
    requires rid != "" && c.sessionID != "" && c.checkpointID != "" && R.MayAnswer(approver) && !other.approved
    requires p.world.run.prepared == Some(q) && p.posted.None? && !p.started && p.disk == Disk(None, None)
    requires WellFormed(p.world.store) && LedgerOfOriginals(p.world.store)
    ensures var end := R.After(digest, p, ApprovingTwice(rid, q, c, approver, other));
            && end.attempt == R.Returned(REJECTED)
            && end.disk.manifest == Some(Whole(R.Finished(Paused(rid, q, c), REJECTED)))
            && end.world.store == Gate(digest, p.world.store, Some(q), DecisionFor(digest, approver, rid, q), false).0
  {
    var m := Paused(rid, q, c);
    PausesDurably(digest, p, rid, q, c);
    var paused := R.After(digest, p, Pausing(rid, q, c));
    assert R.Resumable(paused, m);
    R.AfterSplit(digest, p, Pausing(rid, q, c), R.Answered(m, approver) + [R.Stop] + (R.Answered(m, other) + R.Concluded(REJECTED)));
    hide Gate, R.After, R.Answered, R.Concluded, Pausing, DecisionFor, R.MayAnswer, WellFormed, R.Resumable, R.ApprovalMovesStock;
    R.RejectionMayFollowTransfer(digest, paused, m, approver, other);
  }

  /** A rejected manifest beside a moved order is reachable, from every such store: the approved
      attempt is stopped after the gate, and a rejection is saved. */
  lemma RejectedBesideMovedOrder(
    digest: Digester, s: Store, id: string, status: Result<ShippingStatus>, d: DeliveryEstimate,
    checks: seq<Pipeline.Event>, reply: Recommendation, rid: string, c: CheckpointInfo, approver: Operator, other: Operator)
    requires Supported(s, id, status, d) && LedgerOfOriginals(s) && DEFAULT_KEY !in s.transfers && AllReads(checks, status, d)
    requires s.orders[id].items[0].quantity > 0 && s.orders[id].version > 0
    requires reply.proposedAction == TRANSFER_ACTION && reply.proposal == Some(SydneyProposal(s.orders[id], d))
    requires rid != "" && c.sessionID != "" && c.checkpointID != ""
    requires approver.approved && !IsBlank(approver.actor) && TRANSFER_PERMISSION in approver.permissions && !other.approved
    ensures var o := s.orders[id];
            var q := ApprovalRequest(reply.summary, SydneyProposal(o, d));
            var end := R.After(digest, R.Begin(s), ResolvingTwice(id, checks, reply, rid, q, c, approver, other));
            && end.attempt == R.Returned(REJECTED)
            && end.disk.manifest == Some(Whole(R.Finished(Paused(rid, q, c), REJECTED)))
            && OnlyMoved(s, end.world.store, o)
  {
    var o := s.orders[id];
    var q := ApprovalRequest(reply.summary, SydneyProposal(o, d));
    GateGoesThrough(digest, s, id, status, d, q, DecisionFor(digest, approver, rid, q));
    assert WellFormed(s);
    hide OnlyMoved, Resolved, LedgerOfOriginals, Works, WholeRun, Supported, Gate, R.After, ApprovingTwice, IsBlank, InventoryKey,
      AllReads, WellFormed;
    var ready := RunIsReady(digest, s, id, status, d, checks, reply);
    StoppedThenRejected(digest, ready, rid, q, c, approver, other);
    R.AfterSplit(digest, R.Begin(s), Works(WholeRun(id, checks, reply)), ApprovingTwice(rid, q, c, approver, other));
  }

  lemma DemoStoreIsSupported(status: Result<ShippingStatus>, d: DeliveryEstimate)
    requires d.origin == SYDNEY
    ensures Supported(DemoStore(), "58372", status, d)
  {
    var m, y := InventoryKey("SKU-441", MELBOURNE), InventoryKey("SKU-441", SYDNEY);
    assert m[8] == 'M' && y[8] == 'S';
    DemoStoreIsInitial();
    Pipeline.DefaultKeyNotBlank();
    assert !IsSpace("58372"[0]) && !IsSpace("PAY-58372"[0]) && !IsSpace("SKU-441"[0]) && !IsSpace(MELBOURNE[0]);
    CleanKeysAnswer(DemoStore(), DEMO_ORDER);
  }

  lemma TwoInOrder(xs: seq<Inventory>, a: Inventory, b: Inventory)
    requires multiset(xs) == multiset([a, b]) && !Ascending(b.warehouse, a.warehouse)
    requires forall i, j | 0 <= i < j < |xs| :: Ascending(xs[i].warehouse, xs[j].warehouse)
    ensures xs == [a, b]
  {
    assert |xs| == |multiset(xs)| == 2;
    assert xs[0] in multiset([a, b]) && xs[1] in multiset([a, b]);
    assert multiset(xs) == multiset{xs[0], xs[1]} by { assert xs == [xs[0], xs[1]]; }
    hide Ascending;
  }

  lemma DemoStock()
    ensures Waiting(DemoStore(), DEMO_ORDER) && Stocked(DemoStore(), DEMO_ORDER)
    ensures HomeStock(DemoStore(), DEMO_ORDER) == Inventory("SKU-441", "MEL", 0)
    ensures SydneyStock(DemoStore(), DEMO_ORDER) == Inventory("SKU-441", "SYD", 14)
  {
    var d := DeliveryEstimate(SYDNEY, "", "", 0, 0, "");
    DemoStoreIsSupported(Err(Unclassified), d);
    var km, ky := InventoryKey("SKU-441", MELBOURNE), InventoryKey("SKU-441", SYDNEY);
    assert km[8] == 'M' && ky[8] == 'S';
    hide Waiting, Stocked, InventoryKey, WellFormed;
  }

  /** The evidence of a run on the demonstration store lists Melbourne's stock, then Sydney's. */
  lemma DemoEvidence(status: Result<ShippingStatus>, d: DeliveryEstimate, parts: seq<Part>)
    requires d.origin == SYDNEY && Supported(DemoStore(), "58372", status, d) && AllFound(DemoStore(), DEMO_ORDER, status, d, parts)
    ensures Assemble(parts).Ok?
    ensures Assemble(parts).value.inventory == [Inventory("SKU-441", "MEL", 0), Inventory("SKU-441", "SYD", 14)]
  {
    DemoStock();
    hide Assemble, AllFound, Supported, DemoStore, Ascending, Waiting, Stocked, InventoryKey, HomeStock, SydneyStock, Consistent, KindsOf;
    FoundAssemble(DemoStore(), DEMO_ORDER, status, d, parts);
    assert !Ascending("SYD", "MEL") by { AscendingByFirst("SYD", "MEL"); }
    AssembleExactly(parts);
    TwoInOrder(Assemble(parts).value.inventory, Inventory("SKU-441", "MEL", 0), Inventory("SKU-441", "SYD", 14));
  }
}
