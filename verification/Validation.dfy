/** The check of a recommendation against the evidence it was made from. */
module Validation {
  import opened Text
  import opened Domain

  datatype InvestigationResult = InvestigationResult(evidence: Evidence, recommendation: Recommendation)

  const TRANSFER_ACTION := "transfer_fulfilment"
  const NO_ACTION := "no_action"

  /** The first inventory record for the warehouse and SKU. */
  function FindStock(xs: seq<Inventory>, warehouse: string, sku: string): Option<Inventory> {
    if xs == [] then None
    else if xs[0].warehouse == warehouse && xs[0].sku == sku then Some(xs[0])
    else FindStock(xs[1..], warehouse, sku)
  }

  /** The first estimate from the origin. */
  function FindEstimate(xs: seq<DeliveryEstimate>, origin: string): Option<DeliveryEstimate> {
    if xs == [] then None
    else if xs[0].origin == origin then Some(xs[0])
    else FindEstimate(xs[1..], origin)
  }

  /** The evidence is of an order that waits, is paid for and whose fulfilment is blocked. */
  predicate Movable(e: Evidence) {
    |e.order.items| == 1 && e.order.status == AwaitingFulfilment && e.payment.status == Captured && e.fulfilment.state == Blocked
  }

  /** The one proposal the evidence supports for a target warehouse, if it supports any. */
  function ProposalFor(e: Evidence, target: string): Option<Proposal> {
    if !Movable(e) then None
    else
      var item := e.order.items[0];
      match (FindStock(e.inventory, target, item.sku), FindEstimate(e.deliveryEstimates, target))
      case (Some(stock), Some(estimate)) =>
        if stock.available < item.quantity || target == e.order.warehouse then None
        else Some(Proposal(
          e.order.id, e.order.warehouse, target, item.sku, item.quantity, e.order.version,
          estimate.additionalDays, estimate.additionalCostCents, estimate.currency))
      case _ => None
  }

  /** `ValidateRecommendation` returns no error. */
  predicate Accepts(r: InvestigationResult) {
    && r.recommendation.proposedAction == TRANSFER_ACTION
    && r.recommendation.proposal.Some?
    && ProposalFor(r.evidence, r.recommendation.proposal.value.toWarehouse) == r.recommendation.proposal
  }

  /** Both searches and every comparison, as the source makes them: field by field, with the
      searches as loops that stop at the first match. */
  method ValidateRecommendation(result: InvestigationResult) returns (error: Option<Error>)
    ensures error == if Accepts(result) then None else Some(Conflict)
    ensures error.None? ==>
              && result.evidence.order.status == AwaitingFulfilment && result.evidence.payment.status == Captured
              && result.evidence.fulfilment.state == Blocked
  {
    error := Some(Conflict);
    var recommendation := result.recommendation;
    if recommendation.proposedAction != TRANSFER_ACTION || recommendation.proposal == None { return; }
    var evidence, proposal := result.evidence, recommendation.proposal.value;
    if |evidence.order.items| != 1 { return; }
    var item := evidence.order.items[0];
    if evidence.order.status != AwaitingFulfilment || evidence.payment.status != Captured || evidence.fulfilment.state != Blocked {
      return;
    }
    var target: Option<Inventory> := None;
    var stock := evidence.inventory;
    for i := 0 to |stock|
      invariant target == None
      invariant FindStock(stock, proposal.toWarehouse, item.sku) == FindStock(stock[i..], proposal.toWarehouse, item.sku)
    {
      assert stock[i..][1..] == stock[i + 1..];
      if stock[i].warehouse == proposal.toWarehouse && stock[i].sku == item.sku {
        target := Some(stock[i]);
        break;
      }
    }
    var estimate: Option<DeliveryEstimate> := None;
    var estimates := evidence.deliveryEstimates;
    for i := 0 to |estimates|
      invariant estimate == None
      invariant FindEstimate(estimates, proposal.toWarehouse) == FindEstimate(estimates[i..], proposal.toWarehouse)
    {
      assert estimates[i..][1..] == estimates[i + 1..];
      if estimates[i].origin == proposal.toWarehouse {
        estimate := Some(estimates[i]);
        break;
      }
    }
    if target == None || target.value.available < item.quantity || estimate == None { return; }
    if proposal.orderID != evidence.order.id
       || proposal.fromWarehouse != evidence.order.warehouse
       || proposal.toWarehouse == evidence.order.warehouse
       || proposal.sku != item.sku
       || proposal.quantity != item.quantity
       || proposal.expectedOrderVersion != evidence.order.version
       || proposal.additionalDays != estimate.value.additionalDays
       || proposal.additionalCostCents != estimate.value.additionalCostCents
       || proposal.currency != estimate.value.currency {
      return;
    }
    error := None;
  }

  lemma {:induction false} FindStockMeans(xs: seq<Inventory>, warehouse: string, sku: string)
    ensures FindStock(xs, warehouse, sku).None? <==> !exists x :: x in xs && x.warehouse == warehouse && x.sku == sku
    ensures var r := FindStock(xs, warehouse, sku);
            r.Some? ==> r.value in xs && r.value.warehouse == warehouse && r.value.sku == sku
  {
    if xs != [] {
      FindStockMeans(xs[1..], warehouse, sku);
      assert forall x :: x in xs <==> x == xs[0] || x in xs[1..];
    }
  }

  /** No two records for the SKU answer for one warehouse differently. */
  ghost predicate OneRecordPerWarehouse(xs: seq<Inventory>, sku: string) {
    forall x, y | x in xs && y in xs && x.sku == sku && y.sku == sku && x.warehouse == y.warehouse :: x == y
  }

  /** The record a search from the front stops at. */
  ghost predicate FirstStock(xs: seq<Inventory>, warehouse: string, sku: string, x: Inventory) {
    exists i :: 0 <= i < |xs| && xs[i] == x && x.warehouse == warehouse && x.sku == sku
                && forall j | 0 <= j < i :: xs[j].warehouse != warehouse || xs[j].sku != sku
  }

  ghost predicate FirstEstimate(xs: seq<DeliveryEstimate>, origin: string, d: DeliveryEstimate) {
    exists i :: 0 <= i < |xs| && xs[i] == d && d.origin == origin && forall j | 0 <= j < i :: xs[j].origin != origin
  }

  lemma FirstStockBehind(xs: seq<Inventory>, warehouse: string, sku: string, x: Inventory)
    requires xs != [] && !(xs[0].warehouse == warehouse && xs[0].sku == sku) && FirstStock(xs, warehouse, sku, x)
    ensures FirstStock(xs[1..], warehouse, sku, x)
  {
    var i :| 0 <= i < |xs| && xs[i] == x && x.warehouse == warehouse && x.sku == sku
             && forall j | 0 <= j < i :: xs[j].warehouse != warehouse || xs[j].sku != sku;
    assert xs[1..][i - 1] == x;
    assert forall j | 0 <= j < i - 1 :: xs[1..][j] == xs[j + 1];
  }

  lemma FirstStockAhead(xs: seq<Inventory>, warehouse: string, sku: string, x: Inventory)
    requires xs != [] && !(xs[0].warehouse == warehouse && xs[0].sku == sku) && FirstStock(xs[1..], warehouse, sku, x)
    ensures FirstStock(xs, warehouse, sku, x)
  {
    var i :| 0 <= i < |xs| - 1 && xs[1..][i] == x && x.warehouse == warehouse && x.sku == sku
             && forall j | 0 <= j < i :: xs[1..][j].warehouse != warehouse || xs[1..][j].sku != sku;
    assert xs[i + 1] == x;
    assert forall j | 0 < j < i + 1 :: xs[j] == xs[1..][j - 1];
  }

  lemma {:induction false} FindStockExactly(xs: seq<Inventory>, warehouse: string, sku: string, x: Inventory)
    ensures FindStock(xs, warehouse, sku) == Some(x) <==> FirstStock(xs, warehouse, sku, x)
  {
    if xs != [] && !(xs[0].warehouse == warehouse && xs[0].sku == sku) {
      FindStockExactly(xs[1..], warehouse, sku, x);
      hide FirstStock;
      if FirstStock(xs, warehouse, sku, x) { FirstStockBehind(xs, warehouse, sku, x); }
      if FirstStock(xs[1..], warehouse, sku, x) { FirstStockAhead(xs, warehouse, sku, x); }
    } else if xs != [] && xs[0] == x {
      assert FirstStock(xs, warehouse, sku, x);
    }
  }

  lemma {:induction false} FindEstimateExactly(xs: seq<DeliveryEstimate>, origin: string, d: DeliveryEstimate)
    ensures FindEstimate(xs, origin) == Some(d) <==> FirstEstimate(xs, origin, d)
  {
    if xs != [] && xs[0].origin != origin {
      FindEstimateExactly(xs[1..], origin, d);
      if FirstEstimate(xs, origin, d) {
        var i :| 0 <= i < |xs| && xs[i] == d && d.origin == origin && forall j | 0 <= j < i :: xs[j].origin != origin;
        assert xs[1..][i - 1] == d;
      }
      if FirstEstimate(xs[1..], origin, d) {
        var i :| 0 <= i < |xs| - 1 && xs[1..][i] == d && d.origin == origin && forall j | 0 <= j < i :: xs[1..][j].origin != origin;
        assert xs[i + 1] == d;
        assert forall j | 0 < j < i + 1 :: xs[j] == xs[1..][j - 1];
      }
    }
  }

  /** The first record of stock for the proposal and the first estimate for it bear the proposal out. */
  ghost predicate BornOut(e: Evidence, p: Proposal, x: Inventory, d: DeliveryEstimate) {
    && FirstStock(e.inventory, p.toWarehouse, p.sku, x) && x.available >= p.quantity
    && FirstEstimate(e.deliveryEstimates, p.toWarehouse, d)
    && p.additionalDays == d.additionalDays && p.additionalCostCents == d.additionalCostCents && p.currency == d.currency
  }

  /** The whole of what the validator asks, field by field, on any evidence at all. */
  lemma AcceptsExactly(r: InvestigationResult)
    ensures Accepts(r) <==>
            && r.recommendation.proposedAction == "transfer_fulfilment" && r.recommendation.proposal.Some?
            && var e, p := r.evidence, r.recommendation.proposal.value;
            && e.order.status == AwaitingFulfilment && e.payment.status == Captured && e.fulfilment.state == Blocked
            && e.order.items == [Item(p.sku, p.quantity)]
            && p.orderID == e.order.id && p.expectedOrderVersion == e.order.version
            && p.fromWarehouse == e.order.warehouse && p.toWarehouse != e.order.warehouse
            && exists x, d :: BornOut(e, p, x, d)
  {
    if r.recommendation.proposal.Some? {
      var e, p := r.evidence, r.recommendation.proposal.value;
      if |e.order.items| == 1 {
        var item := e.order.items[0];
        assert item == Item(item.sku, item.quantity) && (e.order.items == [Item(p.sku, p.quantity)] <==> item == Item(p.sku, p.quantity));
        var stock, estimate := FindStock(e.inventory, p.toWarehouse, item.sku), FindEstimate(e.deliveryEstimates, p.toWarehouse);
        forall x ensures FindStock(e.inventory, p.toWarehouse, item.sku) == Some(x) <==> FirstStock(e.inventory, p.toWarehouse, item.sku, x) {
          FindStockExactly(e.inventory, p.toWarehouse, item.sku, x);
        }
        forall d ensures FindEstimate(e.deliveryEstimates, p.toWarehouse) == Some(d) <==> FirstEstimate(e.deliveryEstimates, p.toWarehouse, d) {
          FindEstimateExactly(e.deliveryEstimates, p.toWarehouse, d);
        }
        hide FirstStock, FirstEstimate, FindStock, FindEstimate;
        if stock.Some? && estimate.Some? && item.sku == p.sku && BornOut(e, p, stock.value, estimate.value) {
          assert exists x, d :: BornOut(e, p, x, d);
        }
      }
    }
  }

  /** What the evidence has to show for a transfer to `target` with `estimate`. */
  ghost predicate Supports(e: Evidence, target: string) {
    && |e.order.items| == 1 && target != e.order.warehouse
    && e.order.status == AwaitingFulfilment && e.payment.status == Captured && e.fulfilment.state == Blocked
    && exists x :: x in e.inventory && x.warehouse == target && x.sku == e.order.items[0].sku && x.available >= e.order.items[0].quantity
  }

  /** On evidence with one estimate, as the pipeline gathers it, the validator is an exact
      decision: whatever the reasoner returned, the recommendation is accepted exactly when it
      proposes the transfer that the evidence determines, and there is such a transfer exactly
      when the evidence supports moving the order to where the estimate starts. */
  lemma ValidatorExact(e: Evidence, recommendation: Recommendation)
    requires |e.deliveryEstimates| == 1
    requires e.order.items != [] ==> OneRecordPerWarehouse(e.inventory, e.order.items[0].sku)
    ensures var d := e.deliveryEstimates[0];
            var canonical := ProposalFor(e, d.origin);
            && (Accepts(InvestigationResult(e, recommendation)) <==>
                recommendation.proposedAction == TRANSFER_ACTION && canonical.Some? && recommendation.proposal == canonical)
            && (canonical.Some? <==> Supports(e, d.origin))
            && (canonical.Some? ==>
                var item := e.order.items[0];
                canonical.value == Proposal(e.order.id, e.order.warehouse, d.origin, item.sku, item.quantity, e.order.version,
                                            d.additionalDays, d.additionalCostCents, d.currency))
  {
    var d := e.deliveryEstimates[0];
    assert FindEstimate(e.deliveryEstimates, d.origin) == Some(d);
    if recommendation.proposal.Some? {
      var to := recommendation.proposal.value.toWarehouse;
      assert FindEstimate(e.deliveryEstimates[1..], to) == None;
    }
    if |e.order.items| == 1 { FindStockMeans(e.inventory, d.origin, e.order.items[0].sku); }
  }

  /** On any evidence at all, two accepted proposals with one target are one proposal. */
  lemma AcceptedByTarget(e: Evidence, a: Recommendation, b: Recommendation)
    requires Accepts(InvestigationResult(e, a)) && Accepts(InvestigationResult(e, b))
    requires a.proposal.value.toWarehouse == b.proposal.value.toWarehouse
    ensures a.proposal == b.proposal
  {
  }

  /** What acceptance says of the proposal, field by field. */
  lemma AcceptedMeans(r: InvestigationResult)
    requires Accepts(r)
    ensures var e, p := r.evidence, r.recommendation.proposal.value;
            && e.order.status == AwaitingFulfilment && e.payment.status == Captured && e.fulfilment.state == Blocked
            && e.order.items == [Item(p.sku, p.quantity)]
            && p.orderID == e.order.id && p.fromWarehouse == e.order.warehouse && p.toWarehouse != p.fromWarehouse
            && p.expectedOrderVersion == e.order.version
            && exists x :: x in e.inventory && x.warehouse == p.toWarehouse && x.sku == p.sku && x.available >= p.quantity
  {
    var e, p := r.evidence, r.recommendation.proposal.value;
    FindStockMeans(e.inventory, p.toWarehouse, e.order.items[0].sku);
    assert e.order.items == [Item(p.sku, p.quantity)];
  }

  // ---------- the reasoning step ----------

  /** `ReasonOverEvidence`, whatever the reasoner replied. */
  function Reason(e: Evidence, reply: Result<Recommendation>): Result<InvestigationResult> {
    match reply
    case Err(error) => Err(error)
    case Ok(recommendation) =>
      var result := InvestigationResult(e, recommendation);
      if recommendation.proposedAction == NO_ACTION then
        if recommendation.proposal.Some? then Err(Conflict) else Ok(result)
      else if recommendation.proposedAction == TRANSFER_ACTION then
        if Accepts(result) then Ok(result) else Err(Conflict)
      else Err(Conflict)
  }

  /** A result that leaves the reasoning step either does nothing or is a validated transfer. */
  lemma ReasonLetsThrough(e: Evidence, reply: Result<Recommendation>)
    ensures Reason(e, reply).Ok? <==>
            reply.Ok? && ((reply.value.proposedAction == NO_ACTION && reply.value.proposal.None?)
                          || Accepts(InvestigationResult(e, reply.value)))
    ensures Reason(e, reply).Ok? ==> Reason(e, reply).value == InvestigationResult(e, reply.value)
    ensures Reason(e, reply).Err? ==> Reason(e, reply).error == if reply.Err? then reply.error else Conflict
  {
  }
}
