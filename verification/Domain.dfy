/** The records of the order service and the error classes its operations report. */
module Domain {
  import opened Text

  /** Go's `int` on a 64-bit platform. */
  const MAX_INT: int := 0x7fff_ffff_ffff_ffff
  const MIN_INT: int := -0x8000_0000_0000_0000
  type Int = x: int | MIN_INT <= x <= MAX_INT

  const SYDNEY := "SYD"
  const MELBOURNE := "MEL"
  const TRANSFER_PERMISSION := "order.fulfilment.transfer"
  const DEFAULT_KEY := "transfer-58372-mel-syd"

  /** `errors.Is` classes; message text is not modelled. */
  datatype Error = NotFound | InvalidArgument | Unauthorized | ApprovalNeeded | Conflict | Cancelled | Unclassified

  datatype Result<+T> = Ok(value: T) | Err(error: Error)

  // The three status types are strings in the source; the named values are the ones it tests for.
  datatype OrderStatus = AwaitingFulfilment | ReadyToShip | OtherOrderStatus(text: string)
  datatype PaymentStatus = Captured | OtherPaymentStatus(text: string)
  datatype FulfilmentState = Blocked | Ready | OtherFulfilmentState(text: string)

  datatype Item = Item(sku: string, quantity: Int)

  datatype Order = Order(
    id: string, status: OrderStatus, paymentID: string, warehouse: string,
    items: seq<Item>, shipmentID: string, version: Int)

  datatype Payment = Payment(id: string, orderID: string, status: PaymentStatus, amountCents: Int, currency: string)

  datatype Inventory = Inventory(sku: string, warehouse: string, available: Int)

  datatype Fulfilment = Fulfilment(orderID: string, warehouse: string, state: FulfilmentState)

  datatype ShippingStatus = ShippingStatus(shipmentID: string, status: string, detail: string)

  datatype DeliveryEstimate = DeliveryEstimate(
    origin: string, destination: string, estimatedDeliveryDate: string,
    additionalDays: Int, additionalCostCents: Int, currency: string)

  datatype Evidence = Evidence(
    order: Order, payment: Payment, inventory: seq<Inventory>, fulfilment: Fulfilment,
    shippingStatus: Option<ShippingStatus>, deliveryEstimates: seq<DeliveryEstimate>)

  datatype Proposal = Proposal(
    orderID: string, fromWarehouse: string, toWarehouse: string, sku: string,
    quantity: Int, expectedOrderVersion: Int,
    additionalDays: Int, additionalCostCents: Int, currency: string)

  datatype Recommendation = Recommendation(
    summary: string, proposedAction: string, rationale: seq<string>, proposal: Option<Proposal>)

  datatype Decision = Decision(
    approved: bool, actor: string, permissions: seq<string>, proposalDigest: string, requestID: string)
  {
    predicate HasPermission(permission: string) { permission in permissions }
  }

  datatype Command = Command(proposal: Proposal, approval: Decision, key: string)

  datatype TransferResult = TransferResult(order: Order, key: string, alreadyApplied: bool)
}
