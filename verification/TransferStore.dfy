/** The order data store as a value, and its operations as functions: four readers and the
    guarded, idempotent fulfilment transfer. */
module TransferStore {
  import opened Text
  import opened Domain

  /** `TransferProposal.Digest`, whatever hash stands behind it. */
  type Digester = Proposal -> string

  /** What the ledger remembers about an applied transfer (`idempotentTransfer`). */
  datatype Entry = Entry(proposalDigest: string, result: TransferResult)

  datatype Store = Store(
    orders: map<string, Order>,
    payments: map<string, Payment>,
    inventory: map<string, Inventory>,
    fulfilments: map<string, Fulfilment>,
    transfers: map<string, Entry>)

  /** One call of the transfer: its command, and whether its context was already cancelled. */
  datatype Call = Call(cancelled: bool, command: Command)

  // ---------- keys ----------

  const NUL := '\U{0000}'

  function InventoryKey(sku: string, warehouse: string): string { sku + [NUL] + warehouse }

  /** A key is the SKU, a NUL and the warehouse. */
  lemma InventoryKeyText(sku: string, warehouse: string)
    ensures var k := InventoryKey(sku, warehouse);
            && |k| == |sku| + 1 + |warehouse| && k[|sku|] as int == 0
            && k[..|sku|] == sku && k[|sku| + 1..] == warehouse
  {
  }

  /** Keys of NUL-free SKUs determine SKU and warehouse. */
  lemma InventoryKeyInjective(a: string, b: string, c: string, d: string)
    requires NUL !in a && NUL !in c
    ensures InventoryKey(a, b) == InventoryKey(c, d) <==> a == c && b == d
  {
    var k := InventoryKey(a, b);
    if k == InventoryKey(c, d) {
      assert forall i | 0 <= i < |a| :: k[i] == a[i];
      assert forall i | 0 <= i < |c| :: k[i] == c[i];
      assert k[|a|] == NUL && k[|c|] == NUL;
      assert |a| == |c|;
      assert k[..|a|] == a && k[..|c|] == c;
      assert k[|a| + 1..] == b && k[|c| + 1..] == d;
    }
  }

  /** Under one SKU, whatever it holds, a key determines the warehouse. */
  lemma InventoryKeyWarehouse(sku: string, a: string, b: string)
    ensures InventoryKey(sku, a) == InventoryKey(sku, b) <==> a == b
  {
    assert InventoryKey(sku, a)[|sku| + 1..] == a && InventoryKey(sku, b)[|sku| + 1..] == b;
  }

  /** A key names one pair only, among all pairs of strings, exactly when neither part holds a NUL. */
  lemma InventoryKeyUnambiguous(a: string, b: string)
    ensures (forall c, d :: InventoryKey(c, d) == InventoryKey(a, b) ==> c == a && d == b)
            <==> NUL !in a && NUL !in b
  {
    var k := InventoryKey(a, b);
    if NUL in a {
      var i :| 0 <= i < |a| && a[i] == NUL;
      assert InventoryKey(a[..i], a[i + 1..] + [NUL] + b) == k;
    } else if NUL in b {
      var i :| 0 <= i < |b| && b[i] == NUL;
      assert InventoryKey(a + [NUL] + b[..i], b[i + 1..]) == k;
    } else {
      assert forall i | 0 <= i < |k| :: k[i] == NUL ==> i == |a|;
      forall c, d | InventoryKey(c, d) == k ensures c == a && d == b {
        assert k[|c|] == NUL;
        assert forall i | 0 <= i < |c| :: k[i] == c[i];
        InventoryKeyInjective(a, b, c, d);
      }
    }
  }

  // ---------- well-formed stores ----------

  ghost predicate KeysAgree(s: Store) {
    && (forall k | k in s.orders :: s.orders[k].id == k)
    && (forall k | k in s.payments :: s.payments[k].id == k)
    && (forall k | k in s.fulfilments :: s.fulfilments[k].orderID == k)
    && (forall k | k in s.inventory :: k == InventoryKey(s.inventory[k].sku, s.inventory[k].warehouse))
  }

  ghost predicate StockNonNegative(s: Store) {
    forall k | k in s.inventory :: 0 <= s.inventory[k].available
  }

  /** An order and its fulfilment tell the same story. */
  ghost predicate Coupled(s: Store) {
    forall k | k in s.orders && k in s.fulfilments ::
      && s.fulfilments[k].warehouse == s.orders[k].warehouse
      && (s.orders[k].status.AwaitingFulfilment? <==> s.fulfilments[k].state.Blocked?)
  }

  ghost predicate WellFormed(s: Store) {
    KeysAgree(s) && StockNonNegative(s) && Coupled(s)
  }

  /** A store nobody has transferred anything in. */
  ghost predicate Initial(s: Store) {
    WellFormed(s) && s.transfers == map[]
  }

  // ---------- readers ----------

  function GetOrder(s: Store, cancelled: bool, id: string): Result<Order> {
    if cancelled then Err(Cancelled)
    else if IsBlank(id) then Err(InvalidArgument)
    else if id in s.orders then Ok(s.orders[id]) else Err(NotFound)
  }

  function GetPayment(s: Store, cancelled: bool, id: string): Result<Payment> {
    if cancelled then Err(Cancelled)
    else if IsBlank(id) then Err(InvalidArgument)
    else if id in s.payments then Ok(s.payments[id]) else Err(NotFound)
  }

  function GetInventory(s: Store, cancelled: bool, sku: string, warehouse: string): Result<Inventory> {
    if cancelled then Err(Cancelled)
    else if IsBlank(sku) || IsBlank(warehouse) then Err(InvalidArgument)
    else
      var k := InventoryKey(sku, warehouse);
      if k in s.inventory then Ok(s.inventory[k]) else Err(NotFound)
  }

  function GetFulfilment(s: Store, cancelled: bool, id: string): Result<Fulfilment> {
    if cancelled then Err(Cancelled)
    else if IsBlank(id) then Err(InvalidArgument)
    else if id in s.fulfilments then Ok(s.fulfilments[id]) else Err(NotFound)
  }

  /** An answer is the record of what was asked for, and "not found" means there is none. */
  lemma ReadersAnswer(s: Store, id: string)
    requires KeysAgree(s) && !IsBlank(id)
    ensures forall o :: GetOrder(s, false, id) == Ok(o) <==> o in s.orders.Values && o.id == id
    ensures GetOrder(s, false, id) == Err(NotFound) <==> forall o | o in s.orders.Values :: o.id != id
    ensures forall p :: GetPayment(s, false, id) == Ok(p) <==> p in s.payments.Values && p.id == id
    ensures GetPayment(s, false, id) == Err(NotFound) <==> forall p | p in s.payments.Values :: p.id != id
    ensures forall f :: GetFulfilment(s, false, id) == Ok(f) <==> f in s.fulfilments.Values && f.orderID == id
    ensures GetFulfilment(s, false, id) == Err(NotFound) <==> forall f | f in s.fulfilments.Values :: f.orderID != id
  {
    hide IsBlank;
  }

  /** A getter refuses for a cancelled context, then for a blank question, and else only for want of
      a record. */
  lemma ReadersRefuse(s: Store, cancelled: bool, id: string, sku: string, warehouse: string)
    ensures var refusal := if cancelled then Some(Cancelled) else if TrimSpace(id) == "" then Some(InvalidArgument) else None;
            && (refusal.Some? ==>
                  && GetOrder(s, cancelled, id) == Err(refusal.value) && GetPayment(s, cancelled, id) == Err(refusal.value)
                  && GetFulfilment(s, cancelled, id) == Err(refusal.value))
            && (refusal.None? ==>
                  && (GetOrder(s, cancelled, id) == Err(NotFound) || GetOrder(s, cancelled, id).Ok?)
                  && (GetPayment(s, cancelled, id) == Err(NotFound) || GetPayment(s, cancelled, id).Ok?)
                  && (GetFulfilment(s, cancelled, id) == Err(NotFound) || GetFulfilment(s, cancelled, id).Ok?))
    ensures var r := GetInventory(s, cancelled, sku, warehouse);
            && (r == Err(Cancelled) <==> cancelled)
            && (r == Err(InvalidArgument) <==> !cancelled && (TrimSpace(sku) == "" || TrimSpace(warehouse) == ""))
            && (r.Err? ==> r.error in {Cancelled, InvalidArgument, NotFound})
  {
    BlankIsTrimmedAway(id);
    BlankIsTrimmedAway(sku);
    BlankIsTrimmedAway(warehouse);
    hide IsBlank, TrimSpace;
  }

  /** What the stock reader answers is the stock of that SKU at that warehouse. */
  ghost predicate StockAnswered(s: Store, sku: string, warehouse: string) {
    forall x :: GetInventory(s, false, sku, warehouse) == Ok(x)
                <==> x in s.inventory.Values && x.sku == sku && x.warehouse == warehouse
  }

  /** For stock that is so in every store exactly if neither part of the question holds a NUL. */
  lemma StockReaderAnswers(sku: string, warehouse: string)
    requires !IsBlank(sku) && !IsBlank(warehouse)
    ensures (forall s | KeysAgree(s) :: StockAnswered(s, sku, warehouse)) <==> NUL !in sku && NUL !in warehouse
  {
    InventoryKeyUnambiguous(sku, warehouse);
    hide IsBlank, InventoryKey;
    if forall c, d | InventoryKey(c, d) == InventoryKey(sku, warehouse) :: c == sku && d == warehouse {
      forall s | KeysAgree(s) ensures StockAnswered(s, sku, warehouse) {
        var k := InventoryKey(sku, warehouse);
        if k in s.inventory { assert InventoryKey(s.inventory[k].sku, s.inventory[k].warehouse) == k; }
      }
    } else {
      var c, d :| InventoryKey(c, d) == InventoryKey(sku, warehouse) && !(c == sku && d == warehouse);
      var x, k := Inventory(c, d, 0), InventoryKey(c, d);
      var s := Store(map[], map[], map[k := x], map[], map[]);
      assert KeysAgree(s);
      assert GetInventory(s, false, sku, warehouse) == Ok(x);
      assert !StockAnswered(s, sku, warehouse);
    }
  }

  // ---------- the transfer ----------

  predicate ValidCommand(c: Command) {
    && !IsBlank(c.key)
    && !IsBlank(c.proposal.orderID)
    && !IsBlank(c.proposal.fromWarehouse)
    && !IsBlank(c.proposal.toWarehouse)
    && c.proposal.fromWarehouse != c.proposal.toWarehouse
    && !IsBlank(c.proposal.sku)
    && c.proposal.quantity > 0
    && c.proposal.expectedOrderVersion > 0
  }

  /** The checks made before the lock: of the arguments and of the approval. */
  function PreCheck(digest: Digester, call: Call): Option<Error> {
    var c := call.command;
    if call.cancelled then Some(Cancelled)
    else if !ValidCommand(c) then Some(InvalidArgument)
    else if !c.approval.approved then Some(ApprovalNeeded)
    else if c.approval.proposalDigest != digest(c.proposal) then Some(ApprovalNeeded)
    else if c.approval.actor == "" || !c.approval.HasPermission(TRANSFER_PERMISSION) then Some(Unauthorized)
    else None
  }

  /** The checks made under the lock, of the proposal against the stored records. */
  function Guard(s: Store, p: Proposal): Option<Error> {
    if p.orderID !in s.orders then Some(NotFound)
    else
      var order := s.orders[p.orderID];
      var targetKey := InventoryKey(p.sku, p.toWarehouse);
      if !order.status.AwaitingFulfilment? || order.warehouse != p.fromWarehouse || order.version != p.expectedOrderVersion
        then Some(Conflict)
      else if |order.items| != 1 || order.items[0].sku != p.sku || order.items[0].quantity != p.quantity
        then Some(Conflict)
      else if order.paymentID !in s.payments || !s.payments[order.paymentID].status.Captured?
        then Some(Conflict)
      else if order.id !in s.fulfilments || !s.fulfilments[order.id].state.Blocked? || s.fulfilments[order.id].warehouse != p.fromWarehouse
        then Some(Conflict)
      else if targetKey !in s.inventory || s.inventory[targetKey].available < p.quantity
        then Some(Conflict)
      else None
  }

  /** Go's `version++` wraps. */
  function NextVersion(v: Int): Int { if v == MAX_INT then MIN_INT else v + 1 }

  function MovedOrder(order: Order, warehouse: string): Order {
    order.(warehouse := warehouse, status := ReadyToShip, version := NextVersion(order.version))
  }

  function MovedFulfilment(f: Fulfilment, warehouse: string): Fulfilment {
    f.(warehouse := warehouse, state := Ready)
  }

  function Drawn(stock: Inventory, quantity: Int): Inventory
    requires 0 < quantity <= stock.available
  {
    stock.(available := stock.available - quantity)
  }

  /** The four writes of an accepted transfer and its result. */
  function Apply(digest: Digester, s: Store, c: Command): (Store, TransferResult)
    requires c.proposal.quantity > 0 && Guard(s, c.proposal).None?
  {
    var p := c.proposal;
    var targetKey := InventoryKey(p.sku, p.toWarehouse);
    var order := MovedOrder(s.orders[p.orderID], p.toWarehouse);
    var result := TransferResult(order, c.key, false);
    ( Store(
        s.orders[order.id := order],
        s.payments,
        s.inventory[targetKey := Drawn(s.inventory[targetKey], p.quantity)],
        s.fulfilments[order.id := MovedFulfilment(s.fulfilments[order.id], p.toWarehouse)],
        s.transfers[c.key := Entry(digest(p), result)]),
      result )
  }

  /** Everything that happens while the lock is held. */
  function Locked(digest: Digester, s: Store, c: Command): (Store, Result<TransferResult>)
    requires c.proposal.quantity > 0
  {
    if c.key in s.transfers then
      var prior := s.transfers[c.key];
      if prior.proposalDigest != digest(c.proposal) then (s, Err(Conflict))
      else (s, Ok(prior.result.(alreadyApplied := true)))
    else match Guard(s, c.proposal)
      case Some(e) => (s, Err(e))
      case None => var (t, result) := Apply(digest, s, c); (t, Ok(result))
  }

  /** `TransferFulfilment`. */
  function Transfer(digest: Digester, s: Store, call: Call): (Store, Result<TransferResult>) {
    match PreCheck(digest, call)
    case Some(e) => (s, Err(e))
    case None => Locked(digest, s, call.command)
  }

  /** A successful outcome that was not replayed from the ledger. */
  predicate IsFresh(r: Result<TransferResult>) { r.Ok? && !r.value.alreadyApplied }

  // ---------- what one call does, said outright ----------

  /** Everything the service promises to verify before it moves an order, as one condition. */
  ghost predicate Authorised(digest: Digester, call: Call) {
    && !call.cancelled
    && ValidCommand(call.command)
    && call.command.approval.approved
    && call.command.approval.proposalDigest == digest(call.command.proposal)
    && call.command.approval.actor != ""
    && TRANSFER_PERMISSION in call.command.approval.permissions
  }

  ghost predicate Transferable(s: Store, p: Proposal) {
    && p.orderID in s.orders
    && var o := s.orders[p.orderID];
    && o.status == AwaitingFulfilment && o.warehouse == p.fromWarehouse && o.version == p.expectedOrderVersion
    && o.items == [Item(p.sku, p.quantity)]
    && o.paymentID in s.payments && s.payments[o.paymentID].status == Captured
    && o.id in s.fulfilments && s.fulfilments[o.id].state == Blocked && s.fulfilments[o.id].warehouse == p.fromWarehouse
    && InventoryKey(p.sku, p.toWarehouse) in s.inventory
    && p.quantity <= s.inventory[InventoryKey(p.sku, p.toWarehouse)].available
  }

  lemma GuardExactly(s: Store, p: Proposal)
    ensures Guard(s, p).None? <==> Transferable(s, p)
    ensures Guard(s, p) == Some(NotFound) <==> p.orderID !in s.orders
  {
    if p.orderID in s.orders {
      var items := s.orders[p.orderID].items;
      if |items| == 1 && items[0].sku == p.sku && items[0].quantity == p.quantity {
        assert items == [Item(p.sku, p.quantity)];
      }
    }
  }

  /** A call moves stock exactly when it is authorised, its key is unused and the records still
      support it; a call is replayed exactly when its key was used for the same digest; anything
      else is an error, and only a fresh success changes the store. */
  lemma TransferExactly(digest: Digester, s: Store, call: Call)
    requires forall k | k in s.transfers :: !s.transfers[k].result.alreadyApplied
    ensures var (t, r) := Transfer(digest, s, call);
            var c := call.command;
            && (IsFresh(r) <==> Authorised(digest, call) && c.key !in s.transfers && Transferable(s, c.proposal))
            && (r.Ok? && r.value.alreadyApplied <==>
                Authorised(digest, call) && c.key in s.transfers && s.transfers[c.key].proposalDigest == digest(c.proposal))
            && (r.Ok? && r.value.alreadyApplied ==> r.value.order == s.transfers[c.key].result.order)
            && (!IsFresh(r) ==> t == s)
  {
    GuardExactly(s, call.command.proposal);
  }

  /** Which refusal means what: the checks in their order of precedence, each error exactly when
      its own check fails and none before it. */
  lemma RefusalsExactly(digest: Digester, s: Store, call: Call)
    ensures var r := Transfer(digest, s, call).1;
            var c, p, d := call.command, call.command.proposal, call.command.approval;
            var bound := d.approved && d.proposalDigest == digest(p);
            && (r == Err(Cancelled) <==> call.cancelled)
            && (r == Err(InvalidArgument) <==>
                  && !call.cancelled
                  && (IsBlank(c.key) || IsBlank(p.orderID) || IsBlank(p.fromWarehouse) || IsBlank(p.toWarehouse) || IsBlank(p.sku)
                      || p.fromWarehouse == p.toWarehouse || p.quantity <= 0 || p.expectedOrderVersion <= 0))
            && (r == Err(ApprovalNeeded) <==> !call.cancelled && ValidCommand(c) && !bound)
            && (r == Err(Unauthorized) <==>
                  !call.cancelled && ValidCommand(c) && bound && (d.actor == "" || TRANSFER_PERMISSION !in d.permissions))
            && (r == Err(NotFound) <==> Authorised(digest, call) && c.key !in s.transfers && p.orderID !in s.orders)
            && (r == Err(Conflict) <==>
                  && Authorised(digest, call)
                  && if c.key in s.transfers then s.transfers[c.key].proposalDigest != digest(p)
                     else p.orderID in s.orders && !Transferable(s, p))
            && r != Err(Unclassified)
  {
    GuardExactly(s, call.command.proposal);
    hide Transferable, Apply, IsBlank;
  }

  /** A call that changes the store has applied its command. */
  lemma ChangedByApply(digest: Digester, s: Store, call: Call)
    requires Transfer(digest, s, call).0 != s
    ensures var c := call.command;
            && c.proposal.quantity > 0 && c.proposal.fromWarehouse != c.proposal.toWarehouse
            && c.key !in s.transfers && Transferable(s, c.proposal) && Guard(s, c.proposal).None?
            && Transfer(digest, s, call).0 == Apply(digest, s, c).0
  {
    GuardExactly(s, call.command.proposal);
  }

  /** What a fresh success writes, record by record, and that it touches nothing else. */
  lemma FreshEffect(digest: Digester, s: Store, call: Call)
    requires WellFormed(s)
    requires forall k | k in s.transfers :: !s.transfers[k].result.alreadyApplied
    requires IsFresh(Transfer(digest, s, call).1)
    ensures var (t, r) := Transfer(digest, s, call);
            var p := call.command.proposal;
            var target := InventoryKey(p.sku, p.toWarehouse);
            && t.payments == s.payments
            && t.orders.Keys == s.orders.Keys && t.inventory.Keys == s.inventory.Keys && t.fulfilments.Keys == s.fulfilments.Keys
            && (forall k | k in s.orders && k != p.orderID :: t.orders[k] == s.orders[k])
            && (forall k | k in s.fulfilments && k != p.orderID :: t.fulfilments[k] == s.fulfilments[k])
            && (forall k | k in s.inventory && k != target :: t.inventory[k] == s.inventory[k])
            && t.orders[p.orderID] == s.orders[p.orderID].(
                 status := ReadyToShip, warehouse := p.toWarehouse, version := NextVersion(p.expectedOrderVersion))
            && t.fulfilments[p.orderID] == Fulfilment(p.orderID, p.toWarehouse, Ready)
            && t.inventory[target] ==
                 Inventory(s.inventory[target].sku, s.inventory[target].warehouse, s.inventory[target].available - p.quantity)
            && r.value == TransferResult(t.orders[p.orderID], call.command.key, false)
            && t.transfers == s.transfers[call.command.key := Entry(digest(p), r.value)]
  {
    TransferExactly(digest, s, call);
    GuardExactly(s, call.command.proposal);
  }

  /** The stock a proposal draws on is that of its own SKU at its own target warehouse. */
  ghost predicate DrawsOwnStock(s: Store, p: Proposal) {
    var k := InventoryKey(p.sku, p.toWarehouse);
    k in s.inventory ==> s.inventory[k].sku == p.sku && s.inventory[k].warehouse == p.toWarehouse
  }

  /** A store whose one order is as the proposal expects it, and whose one stock record is `x`. */
  function StoreFor(p: Proposal, x: Inventory): Store {
    Store(
      map[p.orderID := Order(p.orderID, AwaitingFulfilment, "PAY", p.fromWarehouse, [Item(p.sku, p.quantity)], "", p.expectedOrderVersion)],
      map["PAY" := Payment("PAY", p.orderID, Captured, 0, "")],
      map[InventoryKey(x.sku, x.warehouse) := x],
      map[p.orderID := Fulfilment(p.orderID, p.fromWarehouse, Blocked)],
      map[])
  }

  /** A transfer that the service would make draws the stock of its own SKU and target in every
      store exactly if neither of the two holds a NUL; a proposal with one is transferable also
      where the record it draws on is another SKU's. */
  lemma DrawsOwnStockExactly(p: Proposal)
    requires p.quantity > 0
    ensures (forall s | Initial(s) && Transferable(s, p) :: DrawsOwnStock(s, p)) <==> NUL !in p.sku && NUL !in p.toWarehouse
  {
    InventoryKeyUnambiguous(p.sku, p.toWarehouse);
    hide InventoryKey;
    if forall c, d | InventoryKey(c, d) == InventoryKey(p.sku, p.toWarehouse) :: c == p.sku && d == p.toWarehouse {
      forall s | Initial(s) && Transferable(s, p) ensures DrawsOwnStock(s, p) {
        var k := InventoryKey(p.sku, p.toWarehouse);
        assert InventoryKey(s.inventory[k].sku, s.inventory[k].warehouse) == k;
      }
    } else {
      var c, d :| InventoryKey(c, d) == InventoryKey(p.sku, p.toWarehouse) && !(c == p.sku && d == p.toWarehouse);
      var s := StoreFor(p, Inventory(c, d, p.quantity));
      assert Initial(s) && Transferable(s, p);
      assert !DrawsOwnStock(s, p);
    }
  }

  /** A fresh success takes the order to another warehouse than its own, and leaves the stock of its
      SKU there alone. */
  lemma FreshMovesAway(digest: Digester, s: Store, call: Call)
    requires WellFormed(s)
    requires forall k | k in s.transfers :: !s.transfers[k].result.alreadyApplied
    requires IsFresh(Transfer(digest, s, call).1)
    ensures var (t, id, p) := (Transfer(digest, s, call).0, call.command.proposal.orderID, call.command.proposal);
            && id in s.orders && id in t.orders
            && t.orders[id].warehouse == p.toWarehouse != s.orders[id].warehouse
            && t.inventory.Keys == s.inventory.Keys
            && (InventoryKey(p.sku, s.orders[id].warehouse) in s.inventory ==>
                  t.inventory[InventoryKey(p.sku, s.orders[id].warehouse)] == s.inventory[InventoryKey(p.sku, s.orders[id].warehouse)])
            && (forall k | k in s.inventory && s.inventory[k].sku == p.sku && s.inventory[k].warehouse == s.orders[id].warehouse ::
                  t.inventory[k] == s.inventory[k])
  {
    var p := call.command.proposal;
    FreshEffect(digest, s, call);
    TransferExactly(digest, s, call);
    RefusalsExactly(digest, s, call);
    InventoryKeyWarehouse(p.sku, p.fromWarehouse, p.toWarehouse);
    hide Transfer, InventoryKey, IsBlank;
  }

  /** The same as equations between maps. */
  lemma FreshMaps(digest: Digester, s: Store, call: Call)
    requires WellFormed(s) && IsFresh(Transfer(digest, s, call).1)
    requires forall k | k in s.transfers :: !s.transfers[k].result.alreadyApplied
    ensures var (t, r) := Transfer(digest, s, call);
            var p, target := call.command.proposal, InventoryKey(call.command.proposal.sku, call.command.proposal.toWarehouse);
            && p.orderID in s.orders && p.orderID in s.fulfilments && target in s.inventory
            && 0 < p.quantity <= s.inventory[target].available
            && var moved := MovedOrder(s.orders[p.orderID], p.toWarehouse);
            && t == Store(
                 s.orders[p.orderID := moved], s.payments,
                 s.inventory[target := Drawn(s.inventory[target], p.quantity)],
                 s.fulfilments[p.orderID := MovedFulfilment(s.fulfilments[p.orderID], p.toWarehouse)],
                 s.transfers[call.command.key := Entry(digest(p), TransferResult(moved, call.command.key, false))])
            && r == Ok(TransferResult(moved, call.command.key, false))
  {
    var p := call.command.proposal;
    assert Transferable(s, p) && p.quantity > 0 by {
      TransferExactly(digest, s, call);
      hide Transfer, Transferable;
    }
    assert PreCheck(digest, call) == None && call.command.key !in s.transfers;
    hide PreCheck, IsBlank, ValidCommand;
  }

  lemma TransferKeepsWellFormed(digest: Digester, s: Store, call: Call)
    requires WellFormed(s)
    ensures WellFormed(Transfer(digest, s, call).0)
  {
    var t := Transfer(digest, s, call).0;
    if t != s {
      var p := call.command.proposal;
      GuardExactly(s, p);
      assert t == Apply(digest, s, call.command).0;
      assert KeysAgree(t);
      assert StockNonNegative(t);
      assert Coupled(t);
    }
  }

  // ---------- the demonstration store ----------

  const DEMO_ORDER := Order("58372", AwaitingFulfilment, "PAY-58372", MELBOURNE, [Item("SKU-441", 1)], "", 7)

  function DemoStore(): Store {
    Store(
      map["58372" := DEMO_ORDER],
      map["PAY-58372" := Payment("PAY-58372", "58372", Captured, 12900, "AUD")],
      map[InventoryKey("SKU-441", MELBOURNE) := Inventory("SKU-441", MELBOURNE, 0),
          InventoryKey("SKU-441", SYDNEY) := Inventory("SKU-441", SYDNEY, 14)],
      map["58372" := Fulfilment("58372", MELBOURNE, Blocked)],
      map[])
  }

  lemma DemoStoreIsInitial()
    ensures Initial(DemoStore())
    ensures Transferable(DemoStore(), Proposal("58372", MELBOURNE, SYDNEY, "SKU-441", 1, 7, 1, 840, "AUD"))
  {
    var m, y := InventoryKey("SKU-441", MELBOURNE), InventoryKey("SKU-441", SYDNEY);
    assert m[8] == 'M' && y[8] == 'S';
  }
}
