/** The in-memory services as the source has them: five map fields that one method updates,
    one map at a time, and four methods that only read. */
module Orderdata {
  import opened Text
  import opened Domain
  import opened TransferStore
  import S = TransferStore

  class MemoryServices {
    const digest: Digester
    var orders: map<string, Order>
    var payments: map<string, Payment>
    var inventory: map<string, Inventory>
    var fulfilments: map<string, Fulfilment>
    var transfers: map<string, Entry>

    /** The five fields as one value. */
    function View(): Store
      reads this
    {
      Store(orders, payments, inventory, fulfilments, transfers)
    }

    constructor NewDeterministicServices(digest: Digester)
      ensures this.digest == digest && View() == DemoStore()
    {
      this.digest := digest;
      var order := DEMO_ORDER;
      orders := map[order.id := order];
      payments := map[order.paymentID := Payment(order.paymentID, order.id, Captured, 12900, "AUD")];
      inventory := map[
        InventoryKey("SKU-441", MELBOURNE) := Inventory("SKU-441", MELBOURNE, 0),
        InventoryKey("SKU-441", SYDNEY) := Inventory("SKU-441", SYDNEY, 14)];
      fulfilments := map[order.id := Fulfilment(order.id, MELBOURNE, Blocked)];
      transfers := map[];
    }

    method GetOrder(cancelled: bool, orderID: string) returns (r: Result<Order>)
      ensures r == S.GetOrder(View(), cancelled, orderID)
    {
      if cancelled { return Err(Cancelled); }
      if IsBlank(orderID) { return Err(InvalidArgument); }
      if orderID !in orders { return Err(NotFound); }
      r := Ok(orders[orderID]);
    }

    method GetPayment(cancelled: bool, paymentID: string) returns (r: Result<Payment>)
      ensures r == S.GetPayment(View(), cancelled, paymentID)
    {
      if cancelled { return Err(Cancelled); }
      if IsBlank(paymentID) { return Err(InvalidArgument); }
      if paymentID !in payments { return Err(NotFound); }
      r := Ok(payments[paymentID]);
    }

    method GetInventory(cancelled: bool, sku: string, warehouse: string) returns (r: Result<Inventory>)
      ensures r == S.GetInventory(View(), cancelled, sku, warehouse)
    {
      if cancelled { return Err(Cancelled); }
      if IsBlank(sku) { return Err(InvalidArgument); }
      if IsBlank(warehouse) { return Err(InvalidArgument); }
      var key := InventoryKey(sku, warehouse);
      if key !in inventory { return Err(NotFound); }
      r := Ok(inventory[key]);
    }

    method GetFulfilment(cancelled: bool, orderID: string) returns (r: Result<Fulfilment>)
      ensures r == S.GetFulfilment(View(), cancelled, orderID)
    {
      if cancelled { return Err(Cancelled); }
      if IsBlank(orderID) { return Err(InvalidArgument); }
      if orderID !in fulfilments { return Err(NotFound); }
      r := Ok(fulfilments[orderID]);
    }

    /** `validateTransferCommand`, check by check. */
    static method ValidateTransferCommand(command: Command) returns (error: Option<Error>)
      ensures error.Some? <==>
              || TrimSpace(command.key) == "" || TrimSpace(command.proposal.orderID) == ""
              || TrimSpace(command.proposal.fromWarehouse) == "" || TrimSpace(command.proposal.toWarehouse) == ""
              || command.proposal.fromWarehouse == command.proposal.toWarehouse
              || TrimSpace(command.proposal.sku) == ""
              || command.proposal.quantity <= 0 || command.proposal.expectedOrderVersion <= 0
      ensures error.Some? ==> error.value == InvalidArgument
      ensures error.None? <==> ValidCommand(command)
    {
      BlankIsTrimmedAway(command.key);
      BlankIsTrimmedAway(command.proposal.orderID);
      BlankIsTrimmedAway(command.proposal.fromWarehouse);
      BlankIsTrimmedAway(command.proposal.toWarehouse);
      BlankIsTrimmedAway(command.proposal.sku);
      hide IsBlank, TrimSpace;
      error := Some(InvalidArgument);
      if IsBlank(command.key) { return; }
      if IsBlank(command.proposal.orderID) { return; }
      if IsBlank(command.proposal.fromWarehouse) { return; }
      if IsBlank(command.proposal.toWarehouse) { return; }
      if command.proposal.fromWarehouse == command.proposal.toWarehouse { return; }
      if IsBlank(command.proposal.sku) { return; }
      if command.proposal.quantity <= 0 { return; }
      if command.proposal.expectedOrderVersion <= 0 { return; }
      error := None;
    }

    method TransferFulfilment(call: Call) returns (r: Result<TransferResult>)
      modifies this
      ensures (View(), r) == Transfer(digest, old(View()), call)
    {
      hide IsBlank, TrimSpace;
      var command := call.command;
      if call.cancelled { return Err(Cancelled); }
      var invalid := ValidateTransferCommand(command);
      if invalid.Some? { return Err(invalid.value); }
      var proposalDigest := digest(command.proposal);
      if !command.approval.approved { return Err(ApprovalNeeded); }
      if command.approval.proposalDigest != proposalDigest { return Err(ApprovalNeeded); }
      if command.approval.actor == "" || !command.approval.HasPermission(TRANSFER_PERMISSION) {
        return Err(Unauthorized);
      }

      if command.key in transfers {
        var prior := transfers[command.key];
        if prior.proposalDigest != proposalDigest { return Err(Conflict); }
        return Ok(prior.result.(alreadyApplied := true));
      }

      if command.proposal.orderID !in orders { return Err(NotFound); }
      var order := orders[command.proposal.orderID];
      if order.status != AwaitingFulfilment || order.warehouse != command.proposal.fromWarehouse
         || order.version != command.proposal.expectedOrderVersion {
        return Err(Conflict);
      }
      if |order.items| != 1 || order.items[0].sku != command.proposal.sku
         || order.items[0].quantity != command.proposal.quantity {
        return Err(Conflict);
      }
      if order.paymentID !in payments || payments[order.paymentID].status != Captured { return Err(Conflict); }
      if order.id !in fulfilments { return Err(Conflict); }
      var fulfilment := fulfilments[order.id];
      if fulfilment.state != Blocked || fulfilment.warehouse != command.proposal.fromWarehouse { return Err(Conflict); }
      var targetKey := InventoryKey(command.proposal.sku, command.proposal.toWarehouse);
      if targetKey !in inventory { return Err(Conflict); }
      var target := inventory[targetKey];
      if target.available < command.proposal.quantity { return Err(Conflict); }

      target := target.(available := target.available - command.proposal.quantity);
      inventory := inventory[targetKey := target];
      order := order.(warehouse := command.proposal.toWarehouse);
      order := order.(status := ReadyToShip);
      order := order.(version := NextVersion(order.version));
      orders := orders[order.id := order];
      fulfilment := fulfilment.(warehouse := command.proposal.toWarehouse);
      fulfilment := fulfilment.(state := Ready);
      fulfilments := fulfilments[order.id := fulfilment];

      var result := TransferResult(order, command.key, false);
      transfers := transfers[command.key := Entry(proposalDigest, result)];
      r := Ok(result);
    }
  }
}
