/** The four checks, the aggregator that waits for them and the assembly of their parts. */
module EvidenceAssembly {
  import opened Text
  import opened Domain
  import opened TransferStore

  // `evidencePart.Kind` is a string; the named kinds are the ones the assembly switches on.
  datatype Kind = PaymentKind | InventoryKind | FulfilmentKind | ShippingKind | OtherKind(text: string)

  datatype Part = Part(
    kind: Kind, order: Order, payment: Option<Payment>, inventory: seq<Inventory>, fulfilment: Option<Fulfilment>,
    shippingStatus: Option<ShippingStatus>, deliveryEstimates: seq<DeliveryEstimate>)

  // Go's zero values.
  const NO_ORDER := Order("", OtherOrderStatus(""), "", "", [], "", 0)
  const NO_PAYMENT := Payment("", "", OtherPaymentStatus(""), 0, "")
  const NO_FULFILMENT := Fulfilment("", "", OtherFulfilmentState(""))
  const NO_EVIDENCE := Evidence(NO_ORDER, NO_PAYMENT, [], NO_FULFILMENT, None, [])

  const REQUIRED := {PaymentKind, InventoryKind, FulfilmentKind, ShippingKind}

  function BlankPart(kind: Kind, order: Order): Part { Part(kind, order, None, [], None, None, []) }

  // ---------- the checks ----------

  /** The store as one read finds it, and whether the read's context is cancelled by then. */
  datatype View = View(store: Store, cancelled: bool)

  function LoadOrder(v: View, id: string): Result<Order> { GetOrder(v.store, v.cancelled, id) }

  function CheckPayment(v: View, order: Order): Result<Part> {
    match GetPayment(v.store, v.cancelled, order.paymentID)
    case Err(e) => Err(e)
    case Ok(payment) => Ok(BlankPart(PaymentKind, order).(payment := Some(payment)))
  }

  function CheckFulfilment(v: View, order: Order): Result<Part> {
    match GetFulfilment(v.store, v.cancelled, order.id)
    case Err(e) => Err(e)
    case Ok(fulfilment) => Ok(BlankPart(FulfilmentKind, order).(fulfilment := Some(fulfilment)))
  }

  /** Shipping answers come from a remote service; they are given. */
  function CheckShipping(order: Order, status: Result<ShippingStatus>, estimate: Result<DeliveryEstimate>): Result<Part> {
    if order.shipmentID != "" && status.Err? then Err(status.error)
    else match estimate
      case Err(e) => Err(e)
      case Ok(d) =>
        Ok(BlankPart(ShippingKind, order).(
          shippingStatus := if order.shipmentID != "" then Some(status.value) else None,
          deliveryEstimates := [d]))
  }

  /** The warehouses `CheckInventory` asks about. */
  function Warehouses(order: Order): seq<string> { [order.warehouse, SYDNEY] }

  /** One turn of the loop of `CheckInventory`: a warehouse already answered for is skipped. */
  function ReadStock(v: View, order: Order, values: seq<Inventory>, warehouse: string): Result<seq<Inventory>>
    requires order.items != []
  {
    if exists x :: x in values && x.warehouse == warehouse then Ok(values)
    else match GetInventory(v.store, v.cancelled, order.items[0].sku, warehouse)
      case Err(e) => Err(e)
      case Ok(value) => Ok(values + [value])
  }

  function InventoryPart(order: Order, values: seq<Inventory>): Part {
    BlankPart(InventoryKind, order).(inventory := values)
  }

  /** The loop reads the store twice, at two moments. */
  method CheckInventory(views: seq<View>, order: Order) returns (r: Result<Part>)
    requires |views| == 2
    ensures order.items == [] ==> r.Err?
    ensures order.items != [] ==>
              r == match ReadStock(views[0], order, [], order.warehouse)
                   case Err(e) => Err(e)
                   case Ok(first) =>
                     match ReadStock(views[1], order, first, SYDNEY)
                     case Err(e) => Err(e)
                     case Ok(both) => Ok(InventoryPart(order, both))
  {
    if |order.items| == 0 { return Err(Unclassified); }
    var item := order.items[0];
    var warehouses := Warehouses(order);
    var values: seq<Inventory> := [];
    for i := 0 to |warehouses|
      invariant i == 0 ==> values == []
      invariant i == 1 ==> ReadStock(views[0], order, [], order.warehouse) == Ok(values)
      invariant i == 2 ==> ReadStock(views[0], order, [], order.warehouse).Ok?
                           && ReadStock(views[1], order, ReadStock(views[0], order, [], order.warehouse).value, SYDNEY) == Ok(values)
    {
      if exists x :: x in values && x.warehouse == warehouses[i] { continue; }
      var value := GetInventory(views[i].store, views[i].cancelled, item.sku, warehouses[i]);
      if value.Err? { return Err(value.error); }
      values := values + [value.value];
    }
    r := Ok(InventoryPart(order, values));
  }

  /** What each check answers: the part that carries the loaded order and what was read, or the
      error of the read. */
  lemma ChecksAnswer(v: View, order: Order, status: Result<ShippingStatus>, estimate: Result<DeliveryEstimate>)
    ensures var r, got := CheckPayment(v, order), GetPayment(v.store, v.cancelled, order.paymentID);
            if got.Err? then r == Err(got.error)
            else r.Ok? && r.value.kind == PaymentKind && r.value.order == order && r.value.payment == Some(got.value)
    ensures var r, got := CheckFulfilment(v, order), GetFulfilment(v.store, v.cancelled, order.id);
            if got.Err? then r == Err(got.error)
            else r.Ok? && r.value.kind == FulfilmentKind && r.value.order == order && r.value.fulfilment == Some(got.value)
    ensures var r := CheckShipping(order, status, estimate);
            if order.shipmentID != "" && status.Err? then r == Err(status.error)
            else if estimate.Err? then r == Err(estimate.error)
            else r.Ok? && r.value.kind == ShippingKind && r.value.order == order && r.value.deliveryEstimates == [estimate.value]
                 && (if order.shipmentID == "" then r.value.shippingStatus == None else r.value.shippingStatus == Some(status.value))
  {
    hide IsBlank;
  }

  /** One turn of the stock check: a warehouse is asked about unless a record so far answers for it. */
  lemma StockTurn(v: View, order: Order, values: seq<Inventory>, warehouse: string)
    requires order.items != []
    ensures var r, got := ReadStock(v, order, values, warehouse), GetInventory(v.store, v.cancelled, order.items[0].sku, warehouse);
            if warehouse in set x | x in values :: x.warehouse then r == Ok(values)
            else if got.Err? then r == Err(got.error) else r == Ok(values + [got.value])
  {
    hide IsBlank;
  }

  // ---------- assembly ----------

  function WarehouseOf(i: Inventory): string { i.warehouse }

  function OriginOf(d: DeliveryEstimate): string { d.origin }

  /** What the loop has gathered so far. */
  datatype Gathered = Gathered(evidence: Evidence, seen: set<Kind>)

  /** One turn of the assembly loop. */
  function AddPart(g: Gathered, part: Part): Result<Gathered> {
    var e := g.evidence;
    if part.kind in g.seen then Err(Unclassified)
    else if e.order.id != "" && (e.order.id != part.order.id || e.order.version != part.order.version) then Err(Unclassified)
    else
      var e := if e.order.id == "" then e.(order := part.order) else e;
      var seen := g.seen + {part.kind};
      match part.kind
      case PaymentKind =>
        if part.payment.None? then Err(Unclassified) else Ok(Gathered(e.(payment := part.payment.value), seen))
      case InventoryKind => Ok(Gathered(e.(inventory := part.inventory), seen))
      case FulfilmentKind =>
        if part.fulfilment.None? then Err(Unclassified) else Ok(Gathered(e.(fulfilment := part.fulfilment.value), seen))
      case ShippingKind =>
        Ok(Gathered(e.(shippingStatus := part.shippingStatus, deliveryEstimates := part.deliveryEstimates), seen))
      case OtherKind(_) => Err(Unclassified)
  }

  function Gather(parts: seq<Part>): Result<Gathered> {
    if parts == [] then Ok(Gathered(NO_EVIDENCE, {}))
    else match Gather(parts[..|parts| - 1])
      case Err(e) => Err(e)
      case Ok(g) => AddPart(g, parts[|parts| - 1])
  }

  function Finish(g: Gathered): Result<Evidence> {
    if !(REQUIRED <= g.seen) then Err(Unclassified)
    else Ok(g.evidence.(
      inventory := SortBy(WarehouseOf, g.evidence.inventory),
      deliveryEstimates := SortBy(OriginOf, g.evidence.deliveryEstimates)))
  }

  /** `assembleEvidence`. */
  function Assemble(parts: seq<Part>): Result<Evidence> {
    match Gather(parts)
    case Err(e) => Err(e)
    case Ok(g) => Finish(g)
  }

  method AssembleEvidence(parts: seq<Part>) returns (r: Result<Evidence>)
    ensures r == Assemble(parts)
  {
    hide Gather, Assemble;
    var evidence, seen := NO_EVIDENCE, {};
    GatherNothing(parts);
    for i := 0 to |parts|
      invariant Gather(parts[..i]) == Ok(Gathered(evidence, seen))
    {
      var part := parts[i];
      AssembleTurn(parts, i);
      if part.kind in seen { return Err(Unclassified); }
      seen := seen + {part.kind};
      if evidence.order.id == "" {
        evidence := evidence.(order := part.order);
      } else if evidence.order.id != part.order.id || evidence.order.version != part.order.version {
        return Err(Unclassified);
      }
      match part.kind {
        case PaymentKind =>
          if part.payment.None? { return Err(Unclassified); }
          evidence := evidence.(payment := part.payment.value);
        case InventoryKind =>
          evidence := evidence.(inventory := part.inventory);
        case FulfilmentKind =>
          if part.fulfilment.None? { return Err(Unclassified); }
          evidence := evidence.(fulfilment := part.fulfilment.value);
        case ShippingKind =>
          evidence := evidence.(shippingStatus := part.shippingStatus);
          evidence := evidence.(deliveryEstimates := part.deliveryEstimates);
        case OtherKind(_) =>
          return Err(Unclassified);
      }
    }
    AssembleEnd(parts);
    hide SortBy;
    var required := [PaymentKind, InventoryKind, FulfilmentKind, ShippingKind];
    for i := 0 to |required|
      invariant forall j | 0 <= j < i :: required[j] in seen
    {
      if required[i] !in seen { return Err(Unclassified); }
    }
    assert forall k | k in REQUIRED :: k in required;
    evidence := evidence.(inventory := SortBy(WarehouseOf, evidence.inventory));
    evidence := evidence.(deliveryEstimates := SortBy(OriginOf, evidence.deliveryEstimates));
    r := Ok(evidence);
  }

  lemma GatherNothing(parts: seq<Part>)
    ensures Gather(parts[..0]) == Ok(Gathered(NO_EVIDENCE, {}))
  {
  }

  /** A turn of the loop either goes on with `AddPart` or decides the whole. */
  lemma AssembleTurn(parts: seq<Part>, i: nat)
    requires i < |parts| && Gather(parts[..i]).Ok?
    ensures var g := AddPart(Gather(parts[..i]).value, parts[i]);
            Gather(parts[..i + 1]) == g && (g.Err? ==> Assemble(parts) == Err(Unclassified))
  {
    assert parts[..i + 1][..i] == parts[..i];
    if Gather(parts[..i + 1]).Err? { GatherStops(parts, i + 1); }
  }

  lemma AssembleEnd(parts: seq<Part>)
    requires Gather(parts[..|parts|]).Ok?
    ensures Assemble(parts) == Finish(Gather(parts[..|parts|]).value)
  {
    assert parts[..|parts|] == parts;
  }

  /** An error in the loop is the error of the whole. */
  lemma {:induction false} GatherStops(parts: seq<Part>, i: nat)
    requires i <= |parts| && Gather(parts[..i]).Err?
    ensures Gather(parts) == Err(Unclassified)
  {
    if i == |parts| {
      assert parts[..i] == parts;
      GatherErrs(parts);
    } else {
      var n := |parts| - 1;
      assert parts[..n][..i] == parts[..i];
      GatherStops(parts[..n], i);
    }
  }

  lemma {:induction false} GatherErrs(parts: seq<Part>)
    ensures Gather(parts).Ok? || Gather(parts) == Err(Unclassified)
  {
    if parts != [] { GatherErrs(parts[..|parts| - 1]); }
  }

  /** The aggregator: it keeps delivered parts until the barrier opens, then starts afresh. */
  class EvidenceAggregator {
    var parts: seq<Part>

    constructor ()
      ensures parts == []
    {
      parts := [];
    }

    method Deliver(part: Part)
      modifies this
      ensures parts == old(parts) + [part]
    {
      parts := parts + [part];
    }

    method DeliveryFinished() returns (r: Result<Evidence>)
      modifies this
      ensures r == Assemble(old(parts)) && parts == []
    {
      r := AssembleEvidence(parts);
      parts := [];
    }
  }

  // ---------- when assembly succeeds, and with what ----------

  ghost predicate OncePerKind(parts: seq<Part>) {
    forall i, j | 0 <= i < j < |parts| :: parts[i].kind != parts[j].kind
  }

  /** A part of a known kind with the payload its kind needs. */
  predicate Usable(p: Part) {
    !p.kind.OtherKind? && (p.kind.PaymentKind? ==> p.payment.Some?) && (p.kind.FulfilmentKind? ==> p.fulfilment.Some?)
  }

  /** Once a part names an order, every later part names the same order and version. */
  ghost predicate OneOrder(parts: seq<Part>) {
    forall i, j | 0 <= i < j < |parts| && parts[i].order.id != "" ::
      parts[j].order.id == parts[i].order.id && parts[j].order.version == parts[i].order.version
  }

  function KindsOf(parts: seq<Part>): set<Kind> { set p | p in parts :: p.kind }

  ghost predicate AllUsable(parts: seq<Part>) { forall p | p in parts :: Usable(p) }

  ghost predicate Consistent(parts: seq<Part>) {
    OncePerKind(parts) && AllUsable(parts) && OneOrder(parts)
  }

  /** The order the evidence ends up with: the first one with an ID. */
  function FirstOrder(parts: seq<Part>): Order {
    if parts == [] then NO_ORDER
    else
      var o := FirstOrder(parts[..|parts| - 1]);
      if o.id == "" then parts[|parts| - 1].order else o
  }

  /** The evidence says about each kind what the part of that kind says. */
  ghost predicate Holds(e: Evidence, p: Part) {
    match p.kind
    case PaymentKind => p.payment == Some(e.payment)
    case InventoryKind => e.inventory == p.inventory
    case FulfilmentKind => p.fulfilment == Some(e.fulfilment)
    case ShippingKind => e.shippingStatus == p.shippingStatus && e.deliveryEstimates == p.deliveryEstimates
    case OtherKind(_) => true
  }

  ghost predicate GatheredFrom(g: Gathered, parts: seq<Part>) {
    && g.seen == KindsOf(parts) && g.evidence.order == FirstOrder(parts)
    && (forall p | p in parts :: Holds(g.evidence, p))
  }

  lemma {:induction false} FirstOrderNames(parts: seq<Part>)
    requires OneOrder(parts)
    ensures FirstOrder(parts).id != "" ==> exists i :: 0 <= i < |parts| && parts[i].order == FirstOrder(parts)
    ensures FirstOrder(parts).id == "" ==> forall i | 0 <= i < |parts| :: parts[i].order.id == ""
  {
    if parts != [] {
      var n := |parts| - 1;
      FirstOrderNames(parts[..n]);
      if FirstOrder(parts[..n]).id != "" {
        var i :| 0 <= i < n && parts[..n][i].order == FirstOrder(parts[..n]);
        assert parts[i].order == FirstOrder(parts);
      } else {
        assert parts[n].order == FirstOrder(parts);
        forall i | 0 <= i < n ensures parts[i].order.id == "" { assert parts[..n][i].order.id == ""; }
      }
    }
  }

  lemma KindsNext(parts: seq<Part>)
    requires parts != []
    ensures var n := |parts| - 1; KindsOf(parts) == KindsOf(parts[..n]) + {parts[n].kind}
    ensures var n := |parts| - 1; forall p :: p in parts <==> p in parts[..n] || p == parts[n]
  {
    var n := |parts| - 1;
    assert parts == parts[..n] + [parts[n]];
  }

  /** Whether one more part names the order named so far. */
  lemma OneOrderNext(parts: seq<Part>)
    requires parts != [] && OneOrder(parts[..|parts| - 1])
    ensures var o, last := FirstOrder(parts[..|parts| - 1]), parts[|parts| - 1].order;
            OneOrder(parts) <==> o.id == "" || (o.id == last.id && o.version == last.version)
  {
    var n := |parts| - 1;
    var before, o := parts[..n], FirstOrder(parts[..n]);
    FirstOrderNames(before);
    hide FirstOrder;
    assert forall i | 0 <= i < n :: before[i] == parts[i];
    if o.id != "" {
      var k :| 0 <= k < n && before[k].order == o;
      assert parts[k].order == o;
      forall i | 0 <= i < n && parts[i].order.id != "" ensures parts[i].order.id == o.id && parts[i].order.version == o.version {
        assert before[i].order.id != "";
        if i < k { assert before[k].order.id == before[i].order.id; }
        else if k < i { assert before[i].order.id == before[k].order.id; }
      }
    }
  }

  lemma OncePerKindNext(parts: seq<Part>)
    requires parts != [] && OncePerKind(parts[..|parts| - 1])
    ensures OncePerKind(parts) <==> parts[|parts| - 1].kind !in KindsOf(parts[..|parts| - 1])
  {
    var n := |parts| - 1;
    var before := parts[..n];
    assert forall i | 0 <= i < n :: before[i] == parts[i];
    if parts[n].kind in KindsOf(before) {
      var i :| 0 <= i < n && before[i].kind == parts[n].kind;
      assert parts[i].kind == parts[n].kind;
    } else {
      forall i | 0 <= i < n ensures parts[i].kind != parts[n].kind { assert before[i].kind in KindsOf(before); }
    }
  }

  /** Whether one more part keeps the parts consistent is decided from what was gathered. */
  lemma ConsistentNext(parts: seq<Part>, g: Gathered)
    requires parts != [] && Consistent(parts[..|parts| - 1]) && GatheredFrom(g, parts[..|parts| - 1])
    ensures Consistent(parts) <==> AddPart(g, parts[|parts| - 1]).Ok?
  {
    KindsNext(parts);
    OncePerKindNext(parts);
    OneOrderNext(parts);
    hide OncePerKind, OneOrder, KindsOf, FirstOrder, Holds;
  }

  lemma AddPartGathers(parts: seq<Part>, g: Gathered)
    requires parts != [] && GatheredFrom(g, parts[..|parts| - 1]) && AddPart(g, parts[|parts| - 1]).Ok?
    ensures GatheredFrom(AddPart(g, parts[|parts| - 1]).value, parts)
  {
    var n := |parts| - 1;
    KindsNext(parts);
    var h := AddPart(g, parts[n]).value;
    forall p | p in parts ensures Holds(h.evidence, p) {
      if p in parts[..n] { assert Holds(g.evidence, p) && p.kind in g.seen; }
    }
  }

  lemma ConsistentPrefix(parts: seq<Part>)
    requires parts != [] && Consistent(parts)
    ensures Consistent(parts[..|parts| - 1])
  {
    KindsNext(parts);
  }

  lemma {:induction false} GatherExactly(parts: seq<Part>)
    ensures Gather(parts).Ok? <==> Consistent(parts)
    ensures Gather(parts).Ok? ==> GatheredFrom(Gather(parts).value, parts)
  {
    if parts != [] {
      var n := |parts| - 1;
      GatherExactly(parts[..n]);
      if Gather(parts[..n]).Ok? {
        var g := Gather(parts[..n]).value;
        ConsistentNext(parts, g);
        if AddPart(g, parts[n]).Ok? { AddPartGathers(parts, g); }
      }
      hide AddPart, GatheredFrom, KindsOf;
      if Consistent(parts) { ConsistentPrefix(parts); }
    }
  }

  /** What assembly makes of the parts, in terms of the sort it uses. */
  lemma AssembleComputes(parts: seq<Part>)
    ensures Assemble(parts).Ok? <==> Consistent(parts) && KindsOf(parts) == REQUIRED
    ensures Assemble(parts).Ok? ==>
              var e := Assemble(parts).value;
              && e.order == FirstOrder(parts)
              && (forall p | p in parts && p.kind.PaymentKind? :: p.payment == Some(e.payment))
              && (forall p | p in parts && p.kind.FulfilmentKind? :: p.fulfilment == Some(e.fulfilment))
              && (forall p | p in parts && p.kind.InventoryKind? :: e.inventory == SortBy(WarehouseOf, p.inventory))
              && (forall p | p in parts && p.kind.ShippingKind? ::
                    e.shippingStatus == p.shippingStatus && e.deliveryEstimates == SortBy(OriginOf, p.deliveryEstimates))
  {
    GatherExactly(parts);
    if Consistent(parts) {
      assert KindsOf(parts) <= REQUIRED;
      var g := Gather(parts).value;
      assert forall p | p in parts :: Holds(g.evidence, p);
    }
  }

  // ---------- reading assembled evidence ----------

  lemma {:induction false} OncePerKindBySize(parts: seq<Part>)
    ensures |KindsOf(parts)| <= |parts|
    ensures OncePerKind(parts) <==> |KindsOf(parts)| == |parts|
  {
    if parts != [] {
      var n := |parts| - 1;
      KindsNext(parts);
      OncePerKindBySize(parts[..n]);
      if OncePerKind(parts[..n]) { OncePerKindNext(parts); }
      else { assert !OncePerKind(parts) by { BrokenStaysBroken(parts); } }
      hide OncePerKind;
      if parts[n].kind in KindsOf(parts[..n]) { assert KindsOf(parts) == KindsOf(parts[..n]); }
    }
  }

  lemma BrokenStaysBroken(parts: seq<Part>)
    requires parts != [] && !OncePerKind(parts[..|parts| - 1])
    ensures !OncePerKind(parts)
  {
    var before := parts[..|parts| - 1];
    var i, j :| 0 <= i < j < |before| && before[i].kind == before[j].kind;
    assert parts[i].kind == parts[j].kind;
  }

  lemma {:induction false} FirstOrderShared(parts: seq<Part>, o: Order)
    requires parts != [] && forall p | p in parts :: p.order == o
    ensures FirstOrder(parts) == o
  {
    var n := |parts| - 1;
    if n > 0 { FirstOrderShared(parts[..n], o); }
    assert parts[n].order == o;
  }

  lemma AssembleErrs(parts: seq<Part>)
    ensures Assemble(parts).Ok? || Assemble(parts) == Err(Unclassified)
  {
    GatherErrs(parts);
  }

  /** What successful assembly says of one part. */
  ghost predicate Shows(e: Evidence, p: Part) {
    match p.kind
    case PaymentKind => p.payment == Some(e.payment)
    case InventoryKind => e.inventory == SortBy(WarehouseOf, p.inventory)
    case FulfilmentKind => p.fulfilment == Some(e.fulfilment)
    case ShippingKind => e.shippingStatus == p.shippingStatus && e.deliveryEstimates == SortBy(OriginOf, p.deliveryEstimates)
    case OtherKind(_) => true
  }

  lemma AssembledShows(parts: seq<Part>, k: Kind) returns (p: Part)
    requires Assemble(parts).Ok? && k in REQUIRED
    ensures p in parts && p.kind == k && Shows(Assemble(parts).value, p)
  {
    AssembleComputes(parts);
    hide Assemble, Consistent, SortBy;
    assert k in KindsOf(parts);
    p :| p in parts && p.kind == k;
  }

  /** Assembly succeeds exactly when each of the four kinds occurs once, no other kind does,
      required payloads are present and the parts name one order and version; the evidence then
      holds what the four parts hold, inventory in ascending order of warehouse and estimates in
      ascending order of origin. */
  lemma AssembleExactly(parts: seq<Part>)
    ensures Assemble(parts).Ok? <==> Consistent(parts) && KindsOf(parts) == REQUIRED
    ensures Assemble(parts).Ok? ==>
              var e := Assemble(parts).value;
              && e.order == FirstOrder(parts)
              && (forall p | p in parts && p.kind.PaymentKind? :: p.payment == Some(e.payment))
              && (forall p | p in parts && p.kind.FulfilmentKind? :: p.fulfilment == Some(e.fulfilment))
              && (forall p | p in parts && p.kind.InventoryKind? :: multiset(e.inventory) == multiset(p.inventory))
              && (forall p | p in parts && p.kind.ShippingKind? ::
                    e.shippingStatus == p.shippingStatus && multiset(e.deliveryEstimates) == multiset(p.deliveryEstimates))
              && (forall i, j | 0 <= i < j < |e.inventory| :: Ascending(e.inventory[i].warehouse, e.inventory[j].warehouse))
              && (forall i, j | 0 <= i < j < |e.deliveryEstimates| ::
                    Ascending(e.deliveryEstimates[i].origin, e.deliveryEstimates[j].origin))
  {
    AssembleComputes(parts);
    if Assemble(parts).Ok? {
      var e := Assemble(parts).value;
      hide Assemble, Consistent, KindsOf, SortBy, Ascending;
      var stock := AssembledShows(parts, InventoryKind);
      var shipping := AssembledShows(parts, ShippingKind);
      SortedAscends(WarehouseOf, e.inventory);
      SortedAscends(OriginOf, e.deliveryEstimates);
    }
  }

  lemma AssembledOrder(parts: seq<Part>, o: Order)
    requires (forall p | p in parts :: p.order == o) && Assemble(parts).Ok?
    ensures Assemble(parts).value.order == o
  {
    AssembleComputes(parts);
    hide Assemble, Consistent;
    assert PaymentKind in KindsOf(parts);
    FirstOrderShared(parts, o);
  }
}
