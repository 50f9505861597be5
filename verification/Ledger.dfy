/** The idempotency ledger as the one record of what happened: orders, fulfilments and stock
    follow from the initial store and the ledger, and both bound the number of transfers. */
module Ledger {
  import opened Domain
  import opened TransferStore
  import opened Runs
  import opened Sums

  // ---------- what an entry says ----------

  function MovedID(e: Entry): string { e.result.order.id }

  /** The quantity an entry took from the inventory record under `key`. */
  function EntryDraw(e: Entry, key: string): int {
    var o := e.result.order;
    if |o.items| == 1 && InventoryKey(o.items[0].sku, o.warehouse) == key then o.items[0].quantity else 0
  }

  ghost function Draws(ledger: map<string, Entry>, key: string): map<string, int> {
    map k | k in ledger :: EntryDraw(ledger[k], key)
  }

  /** The sum of the quantities of the ledger's entries whose SKU and target warehouse make the key. */
  ghost function LedgerDemand(ledger: map<string, Entry>, key: string): int { Sum(Draws(ledger, key)) }

  /** An entry is the original result of moving one initially awaiting order. */
  ghost predicate EntrySound(init: Store, key: string, e: Entry) {
    var o := e.result.order;
    && e.result.key == key && !e.result.alreadyApplied
    && o.id in init.orders && init.orders[o.id].status.AwaitingFulfilment?
    && o == MovedOrder(init.orders[o.id], o.warehouse) && o.warehouse != init.orders[o.id].warehouse
    && o.id in init.fulfilments && init.fulfilments[o.id].state.Blocked?
    && |o.items| == 1 && o.items[0].quantity > 0
    && InventoryKey(o.items[0].sku, o.warehouse) in init.inventory
  }

  ghost predicate EntriesSound(init: Store, ledger: map<string, Entry>) {
    && (forall k | k in ledger :: EntrySound(init, k, ledger[k]))
    && (forall k, l | k in ledger && l in ledger && MovedID(ledger[k]) == MovedID(ledger[l]) :: k == l)
  }

  ghost predicate Untouched(ledger: map<string, Entry>, id: string) {
    forall k | k in ledger :: MovedID(ledger[k]) != id
  }

  /** The stored records show what an entry's result shows. */
  ghost predicate EntryFollows(init: Store, s: Store, o: Order) {
    && o.id in s.orders && s.orders[o.id] == o
    && o.id in s.fulfilments && o.id in init.fulfilments
    && s.fulfilments[o.id] == MovedFulfilment(init.fulfilments[o.id], o.warehouse)
  }

  /** Orders and fulfilments are the initial ones overlaid with the ledger's results. */
  ghost predicate RecordsFollow(init: Store, s: Store) {
    && s.payments == init.payments
    && s.orders.Keys == init.orders.Keys && s.fulfilments.Keys == init.fulfilments.Keys
    && (forall k | k in s.transfers :: EntryFollows(init, s, s.transfers[k].result.order))
    && (forall id | id in s.orders && Untouched(s.transfers, id) :: s.orders[id] == init.orders[id])
    && (forall id | id in s.fulfilments && Untouched(s.transfers, id) :: s.fulfilments[id] == init.fulfilments[id])
  }

  /** Each inventory record is the initial one less what the ledger drew from it. */
  ghost predicate StockFollows(init: Store, s: Store) {
    && s.inventory.Keys == init.inventory.Keys
    && (forall k | k in s.inventory ::
          && s.inventory[k].sku == init.inventory[k].sku && s.inventory[k].warehouse == init.inventory[k].warehouse
          && s.inventory[k].available == init.inventory[k].available - LedgerDemand(s.transfers, k))
  }

  ghost predicate Accounted(init: Store, s: Store) {
    EntriesSound(init, s.transfers) && RecordsFollow(init, s) && StockFollows(init, s)
  }

  lemma DemandGrows(ledger: map<string, Entry>, k: string, e: Entry, key: string)
    requires k !in ledger
    ensures LedgerDemand(ledger[k := e], key) == LedgerDemand(ledger, key) + EntryDraw(e, key)
  {
    assert Draws(ledger[k := e], key) == Draws(ledger, key)[k := EntryDraw(e, key)];
    SumAdd(Draws(ledger, key), k, EntryDraw(e, key));
  }

  lemma AwaitingIsUntouched(init: Store, s: Store, id: string)
    requires Accounted(init, s) && id in s.orders && s.orders[id].status.AwaitingFulfilment?
    ensures Untouched(s.transfers, id)
  {
  }

  /** The writes of one accepted transfer, under short names. */
  lemma ApplyWrites(digest: Digester, s: Store, c: Command)
    requires KeysAgree(s) && c.proposal.quantity > 0 && Guard(s, c.proposal).None?
    ensures var t, id, w := Apply(digest, s, c).0, c.proposal.orderID, c.proposal.toWarehouse;
            && id in s.orders && id in s.fulfilments
            && t.orders == s.orders[id := MovedOrder(s.orders[id], w)]
            && t.fulfilments == s.fulfilments[id := MovedFulfilment(s.fulfilments[id], w)]
            && t.payments == s.payments
            && t.transfers == s.transfers[c.key := Entry(digest(c.proposal), TransferResult(t.orders[id], c.key, false))]
  {
  }

  lemma FreshEntrySound(digest: Digester, init: Store, s: Store, c: Command)
    requires Initial(init) && KeysAgree(s) && Accounted(init, s)
    requires c.proposal.quantity > 0 && Transferable(s, c.proposal) && Guard(s, c.proposal).None?
    requires c.proposal.fromWarehouse != c.proposal.toWarehouse
    ensures var id := c.proposal.orderID;
            && Untouched(s.transfers, id) && id in init.orders && s.orders[id] == init.orders[id]
            && id in init.fulfilments && s.fulfilments[id] == init.fulfilments[id]
            && EntrySound(init, c.key, Apply(digest, s, c).0.transfers[c.key])
            && MovedID(Apply(digest, s, c).0.transfers[c.key]) == id
  {
    AwaitingIsUntouched(init, s, c.proposal.orderID);
    ApplyWrites(digest, s, c);
  }

  lemma AddEntry(init: Store, ledger: map<string, Entry>, key: string, e: Entry)
    requires EntriesSound(init, ledger) && key !in ledger
    requires EntrySound(init, key, e) && Untouched(ledger, MovedID(e))
    ensures EntriesSound(init, ledger[key := e])
  {
  }

  lemma UntouchedBefore(ledger: map<string, Entry>, key: string, e: Entry, i: string)
    requires key !in ledger && Untouched(ledger[key := e], i)
    ensures i != MovedID(e) && Untouched(ledger, i)
  {
    assert ledger[key := e][key] == e;
    forall k | k in ledger ensures MovedID(ledger[k]) != i { assert ledger[key := e][k] == ledger[k]; }
  }

  lemma WritesKeepEntries(init: Store, s: Store, t: Store, key: string, e: Entry)
    requires RecordsFollow(init, s) && key !in s.transfers && Untouched(s.transfers, MovedID(e))
    requires var o := e.result.order;
             && o.id in init.orders && o.id in init.fulfilments
             && t.orders == s.orders[o.id := o]
             && t.fulfilments == s.fulfilments[o.id := MovedFulfilment(init.fulfilments[o.id], o.warehouse)]
    requires t.transfers == s.transfers[key := e]
    ensures forall k | k in t.transfers :: EntryFollows(init, t, t.transfers[k].result.order)
  {
    hide MovedFulfilment;
    forall k | k in t.transfers ensures EntryFollows(init, t, t.transfers[k].result.order) {
      if k != key {
        assert EntryFollows(init, s, s.transfers[k].result.order);
        assert MovedID(s.transfers[k]) != MovedID(e);
      }
    }
  }

  lemma WritesKeepRecords(init: Store, s: Store, t: Store, key: string, e: Entry)
    requires RecordsFollow(init, s) && key !in s.transfers && Untouched(s.transfers, MovedID(e))
    requires var o := e.result.order;
             && o.id in init.orders && o.id in init.fulfilments
             && t.orders == s.orders[o.id := o]
             && t.fulfilments == s.fulfilments[o.id := MovedFulfilment(init.fulfilments[o.id], o.warehouse)]
    requires t.payments == s.payments && t.transfers == s.transfers[key := e]
    ensures RecordsFollow(init, t)
  {
    hide EntryFollows, MovedFulfilment;
    WritesKeepEntries(init, s, t, key, e);
    forall i | Untouched(t.transfers, i) ensures i != MovedID(e) && Untouched(s.transfers, i) {
      UntouchedBefore(s.transfers, key, e, i);
    }
    hide Untouched;
  }

  lemma FreshKeepsEntries(digest: Digester, init: Store, s: Store, c: Command)
    requires Initial(init) && KeysAgree(s) && Accounted(init, s)
    requires c.proposal.quantity > 0 && c.key !in s.transfers && Transferable(s, c.proposal) && Guard(s, c.proposal).None?
    requires c.proposal.fromWarehouse != c.proposal.toWarehouse
    ensures EntriesSound(init, Apply(digest, s, c).0.transfers)
    ensures RecordsFollow(init, Apply(digest, s, c).0)
  {
    var t := Apply(digest, s, c).0;
    FreshEntrySound(digest, init, s, c);
    ApplyWrites(digest, s, c);
    AddEntry(init, s.transfers, c.key, t.transfers[c.key]);
    WritesKeepRecords(init, s, t, c.key, t.transfers[c.key]);
  }

  /** The stock write of one accepted transfer, and the draw its entry records. */
  lemma ApplyDraws(digest: Digester, s: Store, c: Command)
    requires c.proposal.quantity > 0 && Transferable(s, c.proposal) && Guard(s, c.proposal).None?
    ensures var t, e := Apply(digest, s, c).0, Apply(digest, s, c).0.transfers[c.key];
            && t.transfers == s.transfers[c.key := e] && t.inventory.Keys == s.inventory.Keys
            && (forall k | k in s.inventory ::
                  t.inventory[k] == Inventory(s.inventory[k].sku, s.inventory[k].warehouse, s.inventory[k].available - EntryDraw(e, k)))
  {
  }

  lemma FreshKeepsStock(digest: Digester, init: Store, s: Store, c: Command)
    requires StockFollows(init, s)
    requires c.proposal.quantity > 0 && c.key !in s.transfers && Transferable(s, c.proposal) && Guard(s, c.proposal).None?
    ensures StockFollows(init, Apply(digest, s, c).0)
  {
    ApplyDraws(digest, s, c);
    hide Apply, Guard, Transferable, EntryDraw, LedgerDemand, InventoryKey;
    var t := Apply(digest, s, c).0;
    forall k | k in t.inventory
      ensures t.inventory[k].available == init.inventory[k].available - LedgerDemand(t.transfers, k)
    {
      DemandGrows(s.transfers, c.key, t.transfers[c.key], k);
    }
  }

  lemma StepKeepsAccounts(digest: Digester, init: Store, s: Store, call: Call)
    requires Initial(init) && WellFormed(s) && Accounted(init, s)
    ensures Accounted(init, Transfer(digest, s, call).0)
  {
    hide Transfer, Apply, Guard, Transferable, EntriesSound, RecordsFollow, StockFollows;
    var c := call.command;
    if Transfer(digest, s, call).0 != s {
      ChangedByApply(digest, s, call);
      FreshKeepsEntries(digest, init, s, c);
      FreshKeepsStock(digest, init, s, c);
    }
  }

  lemma NothingIsAccounted(init: Store)
    requires Initial(init)
    ensures Accounted(init, init)
  {
    forall k ensures LedgerDemand(init.transfers, k) == 0 { assert Draws(init.transfers, k) == map[]; }
  }

  /** In every reachable state the ledger accounts for the whole store. */
  lemma {:induction false} LedgerDeterminesStore(digest: Digester, init: Store, calls: seq<Call>)
    requires Initial(init)
    ensures Accounted(init, Run(digest, init, calls))
  {
    if calls == [] {
      NothingIsAccounted(init);
    } else {
      var n := |calls| - 1;
      LedgerDeterminesStore(digest, init, calls[..n]);
      RunEvolves(digest, init, calls[..n]);
      StepKeepsAccounts(digest, init, Run(digest, init, calls[..n]), calls[n]);
    }
  }

  lemma AccountsDetermineRecords(init: Store, s: Store, t: Store)
    requires RecordsFollow(init, s) && RecordsFollow(init, t) && s.transfers == t.transfers
    ensures s.orders == t.orders && s.fulfilments == t.fulfilments
  {
    forall id | id in s.orders ensures s.orders[id] == t.orders[id] {
      if !Untouched(s.transfers, id) {
        var k :| k in s.transfers && MovedID(s.transfers[k]) == id;
      }
    }
    forall id | id in s.fulfilments ensures s.fulfilments[id] == t.fulfilments[id] {
      if !Untouched(s.transfers, id) {
        var k :| k in s.transfers && MovedID(s.transfers[k]) == id;
      }
    }
  }

  lemma AccountsDetermineStock(init: Store, s: Store, t: Store)
    requires StockFollows(init, s) && StockFollows(init, t) && s.transfers == t.transfers
    ensures s.inventory == t.inventory
  {
    forall k | k in s.inventory ensures s.inventory[k] == t.inventory[k] {}
  }

  /** Two runs from one initial store that end with the same ledger end in the same store. */
  lemma SameLedgerSameStore(digest: Digester, init: Store, calls: seq<Call>, others: seq<Call>)
    requires Initial(init)
    requires Run(digest, init, calls).transfers == Run(digest, init, others).transfers
    ensures Run(digest, init, calls) == Run(digest, init, others)
  {
    var s, t := Run(digest, init, calls), Run(digest, init, others);
    LedgerDeterminesStore(digest, init, calls);
    LedgerDeterminesStore(digest, init, others);
    AccountsDetermineRecords(init, s, t);
    AccountsDetermineStock(init, s, t);
  }

  /** Whatever a call returns as a success, fresh or replayed, is the order as now stored. */
  lemma ResultIsStoredOrder(digest: Digester, init: Store, calls: seq<Call>, i: nat)
    requires Initial(init) && i < |calls| && OutcomeAt(digest, init, calls, i).Ok?
    ensures var s, r := Run(digest, init, calls), OutcomeAt(digest, init, calls, i).value;
            && calls[i].command.key in s.transfers
            && s.transfers[calls[i].command.key].proposalDigest == digest(calls[i].command.proposal)
            && s.transfers[calls[i].command.key].result == r.(alreadyApplied := false)
            && r.order.id in s.orders && s.orders[r.order.id] == r.order
  {
    var key := calls[i].command.key;
    var u, v := Run(digest, init, calls[..i]), Run(digest, init, calls[..i + 1]);
    RunNext(digest, init, calls, i);
    LedgerDeterminesStore(digest, init, calls[..i + 1]);
    LedgerDeterminesStore(digest, init, calls);
    RunEvolvesBetween(digest, init, calls, i + 1, |calls|);
    assert calls[..|calls|] == calls;
    FirstDelivery(digest, u, calls[i], calls[i]);
    assert EntrySound(init, key, v.transfers[key]);
  }

  // ---------- how many transfers a run can make ----------

  function FreshCount(digest: Digester, s: Store, calls: seq<Call>): nat {
    if calls == [] then 0
    else
      var n := |calls| - 1;
      FreshCount(digest, s, calls[..n]) + if IsFresh(OutcomeAt(digest, s, calls, n)) then 1 else 0
  }

  /** The units fresh transfers moved. */
  function FreshUnits(digest: Digester, s: Store, calls: seq<Call>): int {
    if calls == [] then 0
    else
      var n := |calls| - 1;
      FreshUnits(digest, s, calls[..n]) + if IsFresh(OutcomeAt(digest, s, calls, n)) then calls[n].command.proposal.quantity else 0
  }

  ghost function Stock(s: Store): map<string, int> { map k | k in s.inventory :: s.inventory[k].available }

  ghost function TotalStock(s: Store): int { Sum(Stock(s)) }

  ghost function AwaitingOrders(s: Store): set<string> {
    set k | k in s.orders && s.orders[k].status.AwaitingFulfilment?
  }

  lemma FreshStepStock(digest: Digester, s: Store, call: Call)
    requires WellFormed(s) && LedgerOfOriginals(s) && IsFresh(Transfer(digest, s, call).1)
    ensures TotalStock(Transfer(digest, s, call).0) == TotalStock(s) - call.command.proposal.quantity
    ensures call.command.proposal.quantity >= 1
  {
    var t, p := Transfer(digest, s, call).0, call.command.proposal;
    var k := InventoryKey(p.sku, p.toWarehouse);
    FreshMaps(digest, s, call);
    hide Transfer, WellFormed, InventoryKey, LedgerOfOriginals, IsFresh, MovedOrder, MovedFulfilment;
    assert Stock(t) == Stock(s)[k := s.inventory[k].available - p.quantity];
    SumReplace(Stock(s), k, s.inventory[k].available - p.quantity);
  }

  lemma OneFewerAwaiting(s: Store, t: Store, id: string)
    requires id in s.orders && s.orders[id].status.AwaitingFulfilment?
    requires t.orders.Keys == s.orders.Keys && !t.orders[id].status.AwaitingFulfilment?
    requires forall k | k in s.orders && k != id :: t.orders[k] == s.orders[k]
    ensures |AwaitingOrders(t)| == |AwaitingOrders(s)| - 1
  {
    assert AwaitingOrders(t) == AwaitingOrders(s) - {id} && id in AwaitingOrders(s);
  }

  lemma OneMoreEntry(ledger: map<string, Entry>, key: string, e: Entry)
    requires key !in ledger
    ensures |ledger[key := e]| == |ledger| + 1
  {
    var grown := ledger[key := e];
    assert |grown| == |grown.Keys| && |ledger| == |ledger.Keys| && grown.Keys == ledger.Keys + {key};
  }

  lemma FreshStepCounts(digest: Digester, s: Store, call: Call)
    requires WellFormed(s) && LedgerOfOriginals(s) && IsFresh(Transfer(digest, s, call).1)
    ensures var t := Transfer(digest, s, call).0;
            && |AwaitingOrders(t)| == |AwaitingOrders(s)| - 1
            && |t.transfers| == |s.transfers| + 1
  {
    TransferExactly(digest, s, call);
    FreshEffect(digest, s, call);
    hide Transfer, WellFormed, AwaitingOrders;
    var t := Transfer(digest, s, call).0;
    OneFewerAwaiting(s, t, call.command.proposal.orderID);
    OneMoreEntry(s.transfers, call.command.key, t.transfers[call.command.key]);
  }

  /** Stock leaves only through fresh transfers, so no run makes more of them than there were
      units in stock or orders awaiting, and the ledger grows by one entry for each. */
  lemma {:induction false} FreshTransfersBounded(digest: Digester, s: Store, calls: seq<Call>)
    requires WellFormed(s) && LedgerOfOriginals(s)
    ensures var t := Run(digest, s, calls);
            && TotalStock(t) == TotalStock(s) - FreshUnits(digest, s, calls)
            && 0 <= TotalStock(t)
            && FreshCount(digest, s, calls) <= FreshUnits(digest, s, calls) <= TotalStock(s)
            && FreshCount(digest, s, calls) == |AwaitingOrders(s)| - |AwaitingOrders(t)|
            && FreshCount(digest, s, calls) == |t.transfers| - |s.transfers|
  {
    if calls != [] {
      var n := |calls| - 1;
      var u := Run(digest, s, calls[..n]);
      FreshTransfersBounded(digest, s, calls[..n]);
      RunEvolves(digest, s, calls[..n]);
      RunKeepsOriginals(digest, s, calls[..n]);
      TransferExactly(digest, u, calls[n]);
      if IsFresh(OutcomeAt(digest, s, calls, n)) {
        FreshStepStock(digest, u, calls[n]);
        FreshStepCounts(digest, u, calls[n]);
      }
    }
    RunEvolves(digest, s, calls);
    SumNonNegative(Stock(Run(digest, s, calls)));
  }
}
