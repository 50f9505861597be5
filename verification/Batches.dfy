/** Batches of transfers for distinct orders under distinct keys: they commute, and they
    succeed throughout exactly when their summed demand fits the stock. */
module Batches {
  import opened Domain
  import opened TransferStore
  import opened Runs

  function OrderOf(c: Call): string { c.command.proposal.orderID }

  function TargetOf(c: Call): string { InventoryKey(c.command.proposal.sku, c.command.proposal.toWarehouse) }

  function DrawOf(c: Call, key: string): int { if TargetOf(c) == key then c.command.proposal.quantity else 0 }

  /** What the batch takes from the inventory record under `key`. */
  function BatchDemand(calls: seq<Call>, key: string): int {
    if calls == [] then 0 else BatchDemand(calls[..|calls| - 1], key) + DrawOf(calls[|calls| - 1], key)
  }

  ghost predicate Distinct(calls: seq<Call>) {
    forall i, j | 0 <= i < j < |calls| ::
      calls[i].command.key != calls[j].command.key && OrderOf(calls[i]) != OrderOf(calls[j])
  }

  /** Each call would succeed fresh were it the only one. */
  ghost predicate EachAcceptable(digest: Digester, s: Store, calls: seq<Call>) {
    forall c | c in calls :: Authorised(digest, c) && c.command.key !in s.transfers && Transferable(s, c.command.proposal)
  }

  ghost predicate Fits(s: Store, calls: seq<Call>) {
    forall k | k in s.inventory :: BatchDemand(calls, k) <= s.inventory[k].available
  }

  ghost predicate AllFresh(digest: Digester, s: Store, calls: seq<Call>) {
    forall i | 0 <= i < |calls| :: IsFresh(OutcomeAt(digest, s, calls, i))
  }

  function EntryFor(digest: Digester, s: Store, c: Call): Entry
    requires OrderOf(c) in s.orders
  {
    Entry(digest(c.command.proposal),
          TransferResult(MovedOrder(s.orders[OrderOf(c)], c.command.proposal.toWarehouse), c.command.key, false))
  }

  // ---------- what a batch leaves, without its order ----------

  function OrdersNamed(calls: seq<Call>): set<string> { set c | c in calls :: OrderOf(c) }

  function KeysNamed(calls: seq<Call>): set<string> { set c | c in calls :: c.command.key }

  ghost predicate HasMoved(s: Store, c: Call, t: Store) {
    var id, w := OrderOf(c), c.command.proposal.toWarehouse;
    && id in s.orders && id in t.orders && t.orders[id] == MovedOrder(s.orders[id], w)
    && id in s.fulfilments && id in t.fulfilments && t.fulfilments[id] == MovedFulfilment(s.fulfilments[id], w)
  }

  ghost predicate OrdersAfter(s: Store, calls: seq<Call>, t: Store) {
    && t.payments == s.payments && t.orders.Keys == s.orders.Keys && t.fulfilments.Keys == s.fulfilments.Keys
    && (forall c | c in calls :: HasMoved(s, c, t))
    && (forall k | k in s.orders && k !in OrdersNamed(calls) :: t.orders[k] == s.orders[k])
    && (forall k | k in s.fulfilments && k !in OrdersNamed(calls) :: t.fulfilments[k] == s.fulfilments[k])
  }

  ghost predicate LedgerAfter(digest: Digester, s: Store, calls: seq<Call>, t: Store) {
    && (forall c | c in calls ::
          OrderOf(c) in s.orders && c.command.key in t.transfers && t.transfers[c.command.key] == EntryFor(digest, s, c))
    && (forall k | k in t.transfers && k !in KeysNamed(calls) :: k in s.transfers && t.transfers[k] == s.transfers[k])
    && s.transfers.Keys <= t.transfers.Keys
  }

  ghost predicate StockAfter(s: Store, calls: seq<Call>, t: Store) {
    && t.inventory.Keys == s.inventory.Keys
    && (forall k | k in s.inventory ::
          && StockEvolves(s.inventory[k], t.inventory[k])
          && t.inventory[k].available == s.inventory[k].available - BatchDemand(calls, k))
  }

  lemma NotYetTouched(calls: seq<Call>, n: nat)
    requires Distinct(calls) && n < |calls|
    ensures OrderOf(calls[n]) !in OrdersNamed(calls[..n]) && calls[n].command.key !in KeysNamed(calls[..n])
  {
  }

  lemma OneMore(calls: seq<Call>, call: Call)
    ensures OrdersNamed(calls + [call]) == OrdersNamed(calls) + {OrderOf(call)}
    ensures KeysNamed(calls + [call]) == KeysNamed(calls) + {call.command.key}
    ensures forall c :: c in calls + [call] <==> c in calls || c == call
    ensures forall k :: BatchDemand(calls + [call], k) == BatchDemand(calls, k) + DrawOf(call, k)
  {
    assert forall c :: c in calls + [call] <==> c in calls || c == call;
    assert (calls + [call])[..|calls|] == calls;
  }

  /** The writes of one fresh call, under short names. */
  ghost predicate Writes(digest: Digester, t: Store, call: Call, u: Store) {
    var id, w, k := OrderOf(call), call.command.proposal.toWarehouse, TargetOf(call);
    && id in t.orders && id in t.fulfilments && k in t.inventory
    && u.payments == t.payments
    && u.orders == t.orders[id := MovedOrder(t.orders[id], w)]
    && u.fulfilments == t.fulfilments[id := MovedFulfilment(t.fulfilments[id], w)]
    && u.transfers == t.transfers[call.command.key := EntryFor(digest, t, call)]
    && u.inventory.Keys == t.inventory.Keys
    && (forall i | i in t.inventory :: StockEvolves(t.inventory[i], u.inventory[i]))
    && (forall i | i in t.inventory :: u.inventory[i].available == t.inventory[i].available - DrawOf(call, i))
  }

  lemma FreshWrites(digest: Digester, t: Store, call: Call)
    requires WellFormed(t) && LedgerOfOriginals(t) && IsFresh(Transfer(digest, t, call).1)
    ensures Writes(digest, t, call, Transfer(digest, t, call).0)
  {
    FreshMaps(digest, t, call);
    hide Transfer, WellFormed, LedgerOfOriginals, IsFresh, MovedOrder, MovedFulfilment, InventoryKey;
  }

  lemma MembersStep(digest: Digester, s: Store, calls: seq<Call>, t: Store, call: Call, u: Store)
    requires OrdersAfter(s, calls, t) && OrderOf(call) !in OrdersNamed(calls) && Writes(digest, t, call, u)
    ensures forall c | c in calls + [call] :: HasMoved(s, c, u)
  {
    var id := OrderOf(call);
    forall c | c in calls + [call] ensures HasMoved(s, c, u) {
      if c in calls {
        assert HasMoved(s, c, t) && OrderOf(c) in OrdersNamed(calls);
      } else {
        assert t.orders[id] == s.orders[id] && t.fulfilments[id] == s.fulfilments[id];
      }
    }
  }

  lemma OrdersStep(digest: Digester, s: Store, calls: seq<Call>, t: Store, call: Call, u: Store)
    requires OrdersAfter(s, calls, t) && OrderOf(call) !in OrdersNamed(calls) && Writes(digest, t, call, u)
    ensures OrdersAfter(s, calls + [call], u)
  {
    hide HasMoved, OrdersNamed, EntryFor, MovedOrder, MovedFulfilment;
    MembersStep(digest, s, calls, t, call, u);
    OneMore(calls, call);
  }

  lemma LedgerStep(digest: Digester, s: Store, calls: seq<Call>, t: Store, call: Call, u: Store)
    requires LedgerAfter(digest, s, calls, t) && call.command.key !in KeysNamed(calls)
    requires OrderOf(call) in s.orders && u.transfers == t.transfers[call.command.key := EntryFor(digest, s, call)]
    ensures LedgerAfter(digest, s, calls + [call], u)
  {
    hide EntryFor;
    OneMore(calls, call);
    forall c | c in calls + [call]
      ensures OrderOf(c) in s.orders && c.command.key in u.transfers && u.transfers[c.command.key] == EntryFor(digest, s, c)
    {
      if c in calls { assert c.command.key in KeysNamed(calls); }
    }
  }

  lemma StockStep(digest: Digester, s: Store, calls: seq<Call>, t: Store, call: Call, u: Store)
    requires StockAfter(s, calls, t) && Writes(digest, t, call, u)
    ensures StockAfter(s, calls + [call], u)
  {
    OneMore(calls, call);
    forall k | k in s.inventory ensures StockEvolves(s.inventory[k], u.inventory[k]) {
      assert StockEvolves(s.inventory[k], t.inventory[k]) && StockEvolves(t.inventory[k], u.inventory[k]);
    }
  }

  // ---------- which batches succeed ----------

  lemma AllFreshPrefix(digest: Digester, s: Store, calls: seq<Call>)
    requires calls != [] && AllFresh(digest, s, calls)
    ensures AllFresh(digest, s, calls[..|calls| - 1])
  {
    var before := calls[..|calls| - 1];
    forall i | 0 <= i < |before| ensures IsFresh(OutcomeAt(digest, s, before, i)) {
      assert before[..i] == calls[..i];
      assert IsFresh(OutcomeAt(digest, s, calls, i));
    }
  }

  lemma AllFreshExtend(digest: Digester, s: Store, calls: seq<Call>)
    requires calls != [] && AllFresh(digest, s, calls[..|calls| - 1]) && IsFresh(OutcomeAt(digest, s, calls, |calls| - 1))
    ensures AllFresh(digest, s, calls)
  {
    var before := calls[..|calls| - 1];
    forall i | 0 <= i < |calls| ensures IsFresh(OutcomeAt(digest, s, calls, i)) {
      if i < |before| {
        assert before[..i] == calls[..i];
        assert IsFresh(OutcomeAt(digest, s, before, i));
      }
    }
  }

  ghost predicate BatchAfter(digest: Digester, s: Store, calls: seq<Call>, t: Store) {
    OrdersAfter(s, calls, t) && LedgerAfter(digest, s, calls, t) && StockAfter(s, calls, t)
  }

  lemma BatchStep(digest: Digester, s: Store, calls: seq<Call>, t: Store, call: Call, u: Store)
    requires BatchAfter(digest, s, calls, t) && Writes(digest, t, call, u)
    requires OrderOf(call) !in OrdersNamed(calls) && call.command.key !in KeysNamed(calls)
    ensures BatchAfter(digest, s, calls + [call], u)
  {
    assert t.orders[OrderOf(call)] == s.orders[OrderOf(call)];
    assert EntryFor(digest, t, call) == EntryFor(digest, s, call);
    hide LedgerAfter, StockAfter;
    OrdersStep(digest, s, calls, t, call, u);
    LedgerStep(digest, s, calls, t, call, u);
    StockStep(digest, s, calls, t, call, u);
  }

  lemma LastBatchStep(digest: Digester, s: Store, before: seq<Call>, last: Call)
    requires WellFormed(s) && LedgerOfOriginals(s)
    requires OrderOf(last) !in OrdersNamed(before) && last.command.key !in KeysNamed(before)
    requires BatchAfter(digest, s, before, Run(digest, s, before))
    requires IsFresh(Transfer(digest, Run(digest, s, before), last).1)
    ensures BatchAfter(digest, s, before + [last], Run(digest, s, before + [last]))
  {
    hide BatchAfter, Writes, Transfer, OrdersNamed, KeysNamed;
    var t := Run(digest, s, before);
    RunEvolves(digest, s, before);
    RunKeepsOriginals(digest, s, before);
    FreshWrites(digest, t, last);
    RunSnoc(digest, s, before, last);
    BatchStep(digest, s, before, t, last, Run(digest, s, before + [last]));
  }

  lemma EmptyBatch(digest: Digester, s: Store)
    ensures BatchAfter(digest, s, [], s)
  {
  }

  /** A batch that succeeds throughout leaves what its members say, whatever their order. */
  lemma {:induction false} BatchLeaves(digest: Digester, s: Store, calls: seq<Call>)
    requires WellFormed(s) && LedgerOfOriginals(s) && Distinct(calls) && AllFresh(digest, s, calls)
    ensures BatchAfter(digest, s, calls, Run(digest, s, calls))
  {
    hide BatchAfter;
    if calls == [] {
      EmptyBatch(digest, s);
    } else {
      var before, last := calls[..|calls| - 1], calls[|calls| - 1];
      AllFreshPrefix(digest, s, calls);
      BatchLeaves(digest, s, before);
      NotYetTouched(calls, |calls| - 1);
      assert IsFresh(OutcomeAt(digest, s, calls, |calls| - 1));
      LastBatchStep(digest, s, before, last);
      assert before + [last] == calls;
    }
  }

  lemma FitsPrefix(digest: Digester, s: Store, calls: seq<Call>)
    requires calls != [] && EachAcceptable(digest, s, calls) && Fits(s, calls)
    ensures Fits(s, calls[..|calls| - 1])
  {
    var n := |calls| - 1;
    assert calls[n] in calls;
    forall k | k in s.inventory ensures BatchDemand(calls[..n], k) <= s.inventory[k].available {
      assert DrawOf(calls[n], k) >= 0;
    }
  }

  /** One more member of a fitting batch finds its order untouched, its key unused and its stock still there. */
  lemma NextStillAcceptable(digest: Digester, s: Store, calls: seq<Call>, t: Store, call: Call)
    requires KeysAgree(s) && BatchAfter(digest, s, calls, t)
    requires OrderOf(call) !in OrdersNamed(calls) && call.command.key !in KeysNamed(calls)
    requires Transferable(s, call.command.proposal) && call.command.key !in s.transfers
    requires BatchDemand(calls, TargetOf(call)) + call.command.proposal.quantity <= s.inventory[TargetOf(call)].available
    ensures Transferable(t, call.command.proposal) && call.command.key !in t.transfers
  {
    assert t.orders[OrderOf(call)] == s.orders[OrderOf(call)];
    assert t.fulfilments[OrderOf(call)] == s.fulfilments[OrderOf(call)];
  }

  lemma LastStillFresh(digest: Digester, s: Store, calls: seq<Call>)
    requires WellFormed(s) && LedgerOfOriginals(s) && Distinct(calls) && calls != []
    requires EachAcceptable(digest, s, calls) && Fits(s, calls)
    requires BatchAfter(digest, s, calls[..|calls| - 1], Run(digest, s, calls[..|calls| - 1]))
    ensures IsFresh(OutcomeAt(digest, s, calls, |calls| - 1))
  {
    var n := |calls| - 1;
    var before, last := calls[..n], calls[n];
    assert last in calls;
    NotYetTouched(calls, n);
    NextStillAcceptable(digest, s, before, Run(digest, s, before), last);
    RunKeepsOriginals(digest, s, before);
    TransferExactly(digest, Run(digest, s, before), last);
  }

  lemma {:induction false} FittingBatchSucceeds(digest: Digester, s: Store, calls: seq<Call>)
    requires WellFormed(s) && LedgerOfOriginals(s) && Distinct(calls)
    requires EachAcceptable(digest, s, calls) && Fits(s, calls)
    ensures AllFresh(digest, s, calls)
  {
    if calls != [] {
      var n := |calls| - 1;
      var before := calls[..n];
      FitsPrefix(digest, s, calls);
      FittingBatchSucceeds(digest, s, before);
      BatchLeaves(digest, s, before);
      LastStillFresh(digest, s, calls);
      AllFreshExtend(digest, s, calls);
    }
  }

  /** Individually acceptable calls for distinct orders and keys all succeed, one after the
      other, exactly when their summed demand fits every inventory record. */
  lemma BatchSucceedsExactly(digest: Digester, s: Store, calls: seq<Call>)
    requires WellFormed(s) && LedgerOfOriginals(s) && Distinct(calls) && EachAcceptable(digest, s, calls)
    ensures AllFresh(digest, s, calls) <==> Fits(s, calls)
  {
    if Fits(s, calls) {
      FittingBatchSucceeds(digest, s, calls);
    }
    if AllFresh(digest, s, calls) {
      BatchLeaves(digest, s, calls);
      RunEvolves(digest, s, calls);
    }
  }

  // ---------- order independence ----------

  lemma {:induction false} DemandOfConcat(a: seq<Call>, b: seq<Call>, key: string)
    ensures BatchDemand(a + b, key) == BatchDemand(a, key) + BatchDemand(b, key)
  {
    if b == [] {
      assert a + b == a;
    } else {
      DemandOfConcat(a, b[..|b| - 1], key);
      assert (a + b)[..|a + b| - 1] == a + b[..|b| - 1];
    }
  }

  function Without(b: seq<Call>, j: nat): seq<Call>
    requires j < |b|
  {
    b[..j] + b[j + 1..]
  }

  lemma TakeOut(b: seq<Call>, j: nat)
    requires j < |b|
    ensures multiset(b) == multiset(Without(b, j)) + multiset{b[j]}
    ensures forall k :: BatchDemand(b, k) == BatchDemand(Without(b, j), k) + DrawOf(b[j], k)
  {
    assert b == b[..j] + [b[j]] + b[j + 1..];
    forall k ensures BatchDemand(b, k) == BatchDemand(Without(b, j), k) + DrawOf(b[j], k) {
      OneMore(b[..j], b[j]);
      DemandOfConcat(b[..j] + [b[j]], b[j + 1..], k);
      DemandOfConcat(b[..j], b[j + 1..], k);
    }
  }

  lemma {:induction false} DemandIgnoresOrder(a: seq<Call>, b: seq<Call>, key: string)
    requires multiset(a) == multiset(b)
    ensures BatchDemand(a, key) == BatchDemand(b, key)
  {
    assert |a| == |multiset(a)| == |b|;
    if a != [] {
      assert a[0] in multiset(b);
      var j :| 0 <= j < |b| && b[j] == a[0];
      TakeOut(a, 0);
      TakeOut(b, j);
      assert multiset(Without(a, 0)) == multiset(a) - multiset{a[0]} == multiset(Without(b, j));
      DemandIgnoresOrder(Without(a, 0), Without(b, j), key);
    }
  }

  lemma {:induction false} OnceOnly(calls: seq<Call>, x: Call)
    requires Distinct(calls)
    ensures multiset(calls)[x] <= 1
  {
    if calls != [] {
      var n := |calls| - 1;
      OnceOnly(calls[..n], x);
      assert calls == calls[..n] + [calls[n]];
      NotYetTouched(calls, n);
      if x in calls[..n] { assert OrderOf(x) in OrdersNamed(calls[..n]); }
    }
  }

  lemma DistinctIgnoresOrder(a: seq<Call>, b: seq<Call>)
    requires multiset(a) == multiset(b) && Distinct(a)
    ensures Distinct(b)
  {
    forall i, j | 0 <= i < j < |b|
      ensures b[i].command.key != b[j].command.key && OrderOf(b[i]) != OrderOf(b[j])
    {
      assert b[i] in multiset(a) && b[j] in multiset(a);
      if b[i] == b[j] {
        assert b == b[..j] + b[j..] && b[i] in b[..j] && b[j] in b[j..];
        OnceOnly(a, b[i]);
      }
    }
  }

  lemma SameMembers(a: seq<Call>, b: seq<Call>)
    requires multiset(a) == multiset(b)
    ensures forall c :: c in a <==> c in b
    ensures OrdersNamed(a) == OrdersNamed(b) && KeysNamed(a) == KeysNamed(b) && |a| == |b|
  {
    forall c ensures c in a <==> c in b { assert c in multiset(a) <==> c in multiset(b); }
    assert |a| == |multiset(a)| == |multiset(b)| == |b|;
  }

  lemma SameOrdersAfter(s: Store, a: seq<Call>, b: seq<Call>, t: Store, u: Store)
    requires (forall c :: c in a <==> c in b) && OrdersNamed(a) == OrdersNamed(b)
    requires OrdersAfter(s, a, t) && OrdersAfter(s, b, u)
    ensures t.orders == u.orders && t.fulfilments == u.fulfilments && t.payments == u.payments
  {
    forall k | k in s.orders ensures t.orders[k] == u.orders[k] {
      if k in OrdersNamed(a) {
        var c :| c in a && OrderOf(c) == k;
        assert HasMoved(s, c, t) && HasMoved(s, c, u);
      }
    }
    forall k | k in s.fulfilments ensures t.fulfilments[k] == u.fulfilments[k] {
      if k in OrdersNamed(a) {
        var c :| c in a && OrderOf(c) == k;
        assert HasMoved(s, c, t) && HasMoved(s, c, u);
      }
    }
  }

  lemma LedgerIncluded(digest: Digester, s: Store, a: seq<Call>, b: seq<Call>, t: Store, u: Store)
    requires (forall c :: c in a <==> c in b) && KeysNamed(a) == KeysNamed(b)
    requires LedgerAfter(digest, s, a, t) && LedgerAfter(digest, s, b, u)
    ensures forall k | k in t.transfers :: k in u.transfers && t.transfers[k] == u.transfers[k]
  {
    forall k | k in t.transfers ensures k in u.transfers && t.transfers[k] == u.transfers[k] {
      if k in KeysNamed(a) {
        var c :| c in a && c.command.key == k;
      }
    }
  }

  lemma SameStockAfter(s: Store, a: seq<Call>, b: seq<Call>, t: Store, u: Store)
    requires StockAfter(s, a, t) && StockAfter(s, b, u)
    requires forall k :: BatchDemand(a, k) == BatchDemand(b, k)
    ensures t.inventory == u.inventory
  {
    forall k | k in s.inventory ensures t.inventory[k] == u.inventory[k] {
      assert StockEvolves(s.inventory[k], t.inventory[k]) && StockEvolves(s.inventory[k], u.inventory[k]);
    }
  }

  lemma SameBatchAfter(digest: Digester, s: Store, a: seq<Call>, b: seq<Call>, t: Store, u: Store)
    requires multiset(a) == multiset(b)
    requires BatchAfter(digest, s, a, t) && BatchAfter(digest, s, b, u)
    ensures t == u
  {
    hide OrdersAfter, LedgerAfter, StockAfter, OrdersNamed, KeysNamed, BatchDemand;
    SameMembers(a, b);
    forall k ensures BatchDemand(a, k) == BatchDemand(b, k) { DemandIgnoresOrder(a, b, k); }
    SameOrdersAfter(s, a, b, t, u);
    LedgerIncluded(digest, s, a, b, t, u);
    LedgerIncluded(digest, s, b, a, u, t);
    SameStockAfter(s, a, b, t, u);
  }

  /** A batch whose demand fits succeeds throughout in every order, and every order of it
      ends in the same store. */
  lemma BatchOrderIrrelevant(digest: Digester, s: Store, calls: seq<Call>, permuted: seq<Call>)
    requires WellFormed(s) && LedgerOfOriginals(s) && Distinct(calls)
    requires EachAcceptable(digest, s, calls) && Fits(s, calls)
    requires multiset(permuted) == multiset(calls)
    ensures AllFresh(digest, s, permuted)
    ensures Run(digest, s, permuted) == Run(digest, s, calls)
  {
    hide BatchAfter, Authorised, Transferable;
    SameMembers(permuted, calls);
    DistinctIgnoresOrder(calls, permuted);
    forall k | k in s.inventory ensures BatchDemand(permuted, k) <= s.inventory[k].available {
      DemandIgnoresOrder(permuted, calls, k);
    }
    FittingBatchSucceeds(digest, s, calls);
    FittingBatchSucceeds(digest, s, permuted);
    BatchLeaves(digest, s, calls);
    BatchLeaves(digest, s, permuted);
    SameBatchAfter(digest, s, calls, permuted, Run(digest, s, calls), Run(digest, s, permuted));
  }
}
