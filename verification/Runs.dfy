/** Whole runs of transfer calls over one store: what only moves one way, that refusals are
    permanent, what repeated delivery does, and what versions and used keys say. */
module Runs {
  import opened Text
  import opened Domain
  import opened TransferStore

  /** The store after the calls, in order. */
  function Run(digest: Digester, s: Store, calls: seq<Call>): Store {
    if calls == [] then s
    else Transfer(digest, Run(digest, s, calls[..|calls| - 1]), calls[|calls| - 1]).0
  }

  /** The outcome of call `i` of a run. */
  function OutcomeAt(digest: Digester, s: Store, calls: seq<Call>, i: nat): Result<TransferResult>
    requires i < |calls|
  {
    Transfer(digest, Run(digest, s, calls[..i]), calls[i]).1
  }

  lemma RunNext(digest: Digester, s: Store, calls: seq<Call>, i: nat)
    requires i < |calls|
    ensures Run(digest, s, calls[..i + 1]) == Transfer(digest, Run(digest, s, calls[..i]), calls[i]).0
  {
    assert calls[..i + 1][..i] == calls[..i];
  }

  lemma {:induction false} RunSplit(digest: Digester, s: Store, calls: seq<Call>, more: seq<Call>)
    ensures Run(digest, s, calls + more) == Run(digest, Run(digest, s, calls), more)
  {
    if more == [] {
      assert calls + more == calls;
    } else {
      RunSplit(digest, s, calls, more[..|more| - 1]);
      assert (calls + more)[..|calls + more| - 1] == calls + more[..|more| - 1];
    }
  }

  // ---------- what only moves one way ----------

  ghost predicate OrderEvolves(a: Order, b: Order) {
    b == a || (a.status.AwaitingFulfilment? && b == MovedOrder(a, b.warehouse) && b.warehouse != a.warehouse)
  }

  ghost predicate FulfilmentEvolves(a: Fulfilment, b: Fulfilment) {
    b == a || (a.state.Blocked? && b == MovedFulfilment(a, b.warehouse) && b.warehouse != a.warehouse)
  }

  ghost predicate StockEvolves(a: Inventory, b: Inventory) {
    b.sku == a.sku && b.warehouse == a.warehouse && b.available <= a.available
  }

  /** A later store: an order may have moved once, stock may have fallen, the ledger may have grown. */
  ghost predicate Evolves(s: Store, t: Store) {
    && t.payments == s.payments
    && t.orders.Keys == s.orders.Keys && (forall k | k in s.orders :: OrderEvolves(s.orders[k], t.orders[k]))
    && t.fulfilments.Keys == s.fulfilments.Keys && (forall k | k in s.fulfilments :: FulfilmentEvolves(s.fulfilments[k], t.fulfilments[k]))
    && t.inventory.Keys == s.inventory.Keys && (forall k | k in s.inventory :: StockEvolves(s.inventory[k], t.inventory[k]))
    && (forall k | k in s.transfers :: k in t.transfers && t.transfers[k] == s.transfers[k])
  }

  lemma EvolvesTransitive(s: Store, t: Store, u: Store)
    requires Evolves(s, t) && Evolves(t, u)
    ensures Evolves(s, u)
  {
    forall k | k in s.orders ensures OrderEvolves(s.orders[k], u.orders[k]) {
      assert OrderEvolves(s.orders[k], t.orders[k]) && OrderEvolves(t.orders[k], u.orders[k]);
    }
    forall k | k in s.fulfilments ensures FulfilmentEvolves(s.fulfilments[k], u.fulfilments[k]) {
      assert FulfilmentEvolves(s.fulfilments[k], t.fulfilments[k]) && FulfilmentEvolves(t.fulfilments[k], u.fulfilments[k]);
    }
    forall k | k in s.inventory ensures StockEvolves(s.inventory[k], u.inventory[k]) {
      assert StockEvolves(s.inventory[k], t.inventory[k]) && StockEvolves(t.inventory[k], u.inventory[k]);
    }
  }

  lemma ApplyEvolves(digest: Digester, s: Store, c: Command)
    requires KeysAgree(s) && c.proposal.quantity > 0 && c.key !in s.transfers
    requires Guard(s, c.proposal).None? && c.proposal.fromWarehouse != c.proposal.toWarehouse
    ensures Evolves(s, Apply(digest, s, c).0)
  {
    var t, id := Apply(digest, s, c).0, c.proposal.orderID;
    assert t.orders == s.orders[id := MovedOrder(s.orders[id], c.proposal.toWarehouse)];
    assert t.fulfilments == s.fulfilments[id := MovedFulfilment(s.fulfilments[id], c.proposal.toWarehouse)];
    assert t.orders.Keys == s.orders.Keys && t.fulfilments.Keys == s.fulfilments.Keys && t.inventory.Keys == s.inventory.Keys;
  }

  lemma StepEvolves(digest: Digester, s: Store, call: Call)
    requires WellFormed(s)
    ensures Evolves(s, Transfer(digest, s, call).0)
  {
    var t := Transfer(digest, s, call).0;
    if t != s {
      var p := call.command.proposal;
      assert Transferable(s, p) by { GuardExactly(s, p); }
      ApplyEvolves(digest, s, call.command);
    }
  }

  lemma {:induction false} RunEvolves(digest: Digester, s: Store, calls: seq<Call>)
    requires WellFormed(s)
    ensures WellFormed(Run(digest, s, calls))
    ensures Evolves(s, Run(digest, s, calls))
  {
    if calls != [] {
      var n := |calls| - 1;
      var t := Run(digest, s, calls[..n]);
      RunEvolves(digest, s, calls[..n]);
      TransferKeepsWellFormed(digest, t, calls[n]);
      StepEvolves(digest, t, calls[n]);
      EvolvesTransitive(s, t, Run(digest, s, calls));
    }
  }

  /** Any two points of one run. */
  lemma RunEvolvesBetween(digest: Digester, s: Store, calls: seq<Call>, i: nat, j: nat)
    requires WellFormed(s) && i <= j <= |calls|
    ensures WellFormed(Run(digest, s, calls[..i])) && WellFormed(Run(digest, s, calls[..j]))
    ensures Evolves(Run(digest, s, calls[..i]), Run(digest, s, calls[..j]))
  {
    RunEvolves(digest, s, calls[..i]);
    RunEvolves(digest, Run(digest, s, calls[..i]), calls[i..j]);
    RunSplit(digest, s, calls[..i], calls[i..j]);
    assert calls[..i] + calls[i..j] == calls[..j];
  }

  /** Support for a proposal can be lost but never gained. */
  lemma TransferableOnlyFades(s: Store, t: Store, p: Proposal)
    requires Evolves(s, t) && KeysAgree(s) && Transferable(t, p)
    ensures Transferable(s, p)
    ensures t.orders[p.orderID] == s.orders[p.orderID]
    ensures t.fulfilments[p.orderID] == s.fulfilments[p.orderID]
  {
    assert OrderEvolves(s.orders[p.orderID], t.orders[p.orderID]);
    assert FulfilmentEvolves(s.fulfilments[p.orderID], t.fulfilments[p.orderID]);
    var k := InventoryKey(p.sku, p.toWarehouse);
    assert StockEvolves(s.inventory[k], t.inventory[k]);
  }

  // ---------- refusals ----------

  /** The ledger of a well-formed run records originals, never replays. */
  ghost predicate LedgerOfOriginals(s: Store) {
    forall k | k in s.transfers :: s.transfers[k].result.key == k && !s.transfers[k].result.alreadyApplied
  }

  lemma {:induction false} RunKeepsOriginals(digest: Digester, s: Store, calls: seq<Call>)
    requires LedgerOfOriginals(s)
    ensures LedgerOfOriginals(Run(digest, s, calls))
  {
    if calls != [] {
      RunKeepsOriginals(digest, s, calls[..|calls| - 1]);
    }
  }

  lemma WellFormedKeys(s: Store)
    requires WellFormed(s)
    ensures KeysAgree(s)
  {
  }

  /** Had a refused command's key been recorded later under the command's own digest, some later
      command would have carried another proposal with that digest. */
  lemma {:induction false} KeyTakenOnlyByCollision(digest: Digester, s: Store, call: Call, later: seq<Call>)
    requires WellFormed(s) && PreCheck(digest, call).None? && Transfer(digest, s, call).1.Err?
    requires var t := Run(digest, s, later);
             call.command.key in t.transfers && t.transfers[call.command.key].proposalDigest == digest(call.command.proposal)
    ensures exists c | c in later ::
              c.command.proposal != call.command.proposal && digest(c.command.proposal) == digest(call.command.proposal)
  {
    var p, key := call.command.proposal, call.command.key;
    GuardExactly(s, p);
    hide WellFormed, IsBlank, Transferable;
    if later != [] {
      var n := |later| - 1;
      var u, c := Run(digest, s, later[..n]), later[n];
      RunEvolves(digest, s, later[..n]);
      GuardExactly(u, c.command.proposal);
      assert KeysAgree(s) by { WellFormedKeys(s); }
      hide Guard;
      if key in u.transfers {
        assert Run(digest, s, later).transfers[key] == u.transfers[key] by { StepEvolves(digest, u, c); }
        KeyTakenOnlyByCollision(digest, s, call, later[..n]);
      } else if c.command.proposal == p {
        TransferableOnlyFades(s, u, p);
        assert false;
      } else {
        assert c in later && digest(c.command.proposal) == digest(p);
      }
    }
  }

  /** A refusal for any reason but cancellation is permanent: the same call can succeed after more
      calls only if one of those carried a different proposal with the same digest. */
  lemma RefusalPermanent(digest: Digester, s: Store, call: Call, later: seq<Call>)
    requires WellFormed(s) && !call.cancelled && Transfer(digest, s, call).1.Err?
    requires forall c | c in later && digest(c.command.proposal) == digest(call.command.proposal) ::
               c.command.proposal == call.command.proposal
    ensures Transfer(digest, Run(digest, s, later), call).1.Err?
    ensures Transfer(digest, Run(digest, s, later), call).0 == Run(digest, s, later)
  {
    if PreCheck(digest, call).None? {
      var p, key, t := call.command.proposal, call.command.key, Run(digest, s, later);
      RunEvolves(digest, s, later);
      GuardExactly(s, p);
      GuardExactly(t, p);
      if Transferable(t, p) { TransferableOnlyFades(s, t, p); }
      if key in t.transfers && t.transfers[key].proposalDigest == digest(p) {
        KeyTakenOnlyByCollision(digest, s, call, later);
      }
    }
  }

  // ---------- at-least-once delivery ----------

  /** What a delivery leaves behind for its repeats. */
  lemma FirstDelivery(digest: Digester, s: Store, call: Call, repeat: Call)
    requires !call.cancelled && call.command == repeat.command && PreCheck(digest, repeat).None?
    ensures var (t, r) := Transfer(digest, s, call);
            var key, p := call.command.key, call.command.proposal;
            && (r.Ok? ==> key in t.transfers && t.transfers[key].proposalDigest == digest(p)
                          && t.transfers[key].result.(alreadyApplied := true) == r.value.(alreadyApplied := true))
            && (r.Err? ==> t == s && if key in s.transfers then s.transfers[key].proposalDigest != digest(p) else !Transferable(s, p))
  {
    assert PreCheck(digest, call).None?;
    GuardExactly(s, call.command.proposal);
  }

  /** Delivering a call again, after anything else, changes nothing; and if the first delivery
      succeeded the repeat returns the same order, marked as already applied. */
  lemma RepeatDelivery(digest: Digester, s: Store, calls: seq<Call>, i: nat, repeat: Call)
    requires WellFormed(s) && i < |calls|
    requires !calls[i].cancelled && calls[i].command == repeat.command
    ensures var t := Run(digest, s, calls);
            && Transfer(digest, t, repeat).0 == t
            && (OutcomeAt(digest, s, calls, i).Ok? && !repeat.cancelled ==>
                Transfer(digest, t, repeat).1 == Ok(OutcomeAt(digest, s, calls, i).value.(alreadyApplied := true)))
  {
    var t, u, v := Run(digest, s, calls), Run(digest, s, calls[..i]), Run(digest, s, calls[..i + 1]);
    var p := repeat.command.proposal;
    assert calls[..|calls|] == calls;
    RunNext(digest, s, calls, i);
    assert Evolves(u, t) && Evolves(v, t) && KeysAgree(u) by {
      RunEvolvesBetween(digest, s, calls, i, |calls|);
      RunEvolvesBetween(digest, s, calls, i + 1, |calls|);
    }
    if PreCheck(digest, repeat).None? {
      FirstDelivery(digest, u, calls[i], repeat);
      RepeatFinds(digest, u, v, t, calls[i], repeat);
    } else if !repeat.cancelled {
      assert PreCheck(digest, calls[i]).Some?;
    }
  }

  /** The same two deliveries with the states named: `u` before the first, `v` after it, `t` before the repeat. */
  lemma RepeatFinds(digest: Digester, u: Store, v: Store, t: Store, call: Call, repeat: Call)
    requires KeysAgree(u) && Evolves(u, t) && Evolves(v, t) && v == Transfer(digest, u, call).0
    requires !call.cancelled && call.command == repeat.command && PreCheck(digest, repeat).None?
    ensures Transfer(digest, t, repeat).0 == t
    ensures Transfer(digest, u, call).1.Ok? ==>
              Transfer(digest, t, repeat).1 == Ok(Transfer(digest, u, call).1.value.(alreadyApplied := true))
  {
    var p := repeat.command.proposal;
    FirstDelivery(digest, u, call, repeat);
    GuardExactly(t, p);
    if Transferable(t, p) { TransferableOnlyFades(u, t, p); }
  }

  /** The commands some call has delivered. */
  function Delivered(calls: seq<Call>): set<Command> {
    set c | c in calls && !c.cancelled :: c.command
  }

  /** The calls without cancelled ones and without repeats of an earlier delivery. */
  function FirstDeliveries(calls: seq<Call>): seq<Call> {
    if calls == [] then []
    else
      var before, last := calls[..|calls| - 1], calls[|calls| - 1];
      FirstDeliveries(before) + if last.cancelled || last.command in Delivered(before) then [] else [last]
  }

  /** Each command delivered is kept once, at its first delivery, and nothing else is. */
  lemma {:induction false} FirstDeliveriesExactly(calls: seq<Call>)
    ensures Delivered(FirstDeliveries(calls)) == Delivered(calls)
    ensures forall c | c in FirstDeliveries(calls) :: !c.cancelled && c in calls
    ensures forall i, j | 0 <= i < j < |FirstDeliveries(calls)| :: FirstDeliveries(calls)[i].command != FirstDeliveries(calls)[j].command
    ensures forall k | 0 <= k <= |calls| :: FirstDeliveries(calls[..k]) <= FirstDeliveries(calls)
  {
    if calls == [] {
      assert calls[..0] == [];
    } else {
      var before, last := calls[..|calls| - 1], calls[|calls| - 1];
      FirstDeliveriesExactly(before);
      assert calls == before + [last];
      assert forall c :: c in calls <==> c in before || c == last;
      var first := FirstDeliveries(before);
      forall c | c in first ensures c.command in Delivered(before) { assert c in before && !c.cancelled; }
      forall k | 0 <= k <= |calls| ensures FirstDeliveries(calls[..k]) <= FirstDeliveries(calls) {
        if k == |calls| { assert calls[..k] == calls; } else { assert calls[..k] == before[..k]; }
      }
      DeliveredNext(before, last);
      DeliveredNext(first, last);
    }
  }

  lemma DeliveredNext(calls: seq<Call>, last: Call)
    ensures Delivered(calls + [last]) == Delivered(calls) + if last.cancelled then {} else {last.command}
  {
    forall c ensures c in Delivered(calls + [last]) <==> c in Delivered(calls) || (!last.cancelled && c == last.command) {
      if c in Delivered(calls) {
        var x :| x in calls && !x.cancelled && x.command == c;
        assert x in calls + [last];
      }
      if !last.cancelled { assert last in calls + [last]; }
    }
  }

  lemma RedundantCall(digest: Digester, s: Store, before: seq<Call>, last: Call)
    requires WellFormed(s) && (last.cancelled || last.command in Delivered(before))
    ensures Transfer(digest, Run(digest, s, before), last).0 == Run(digest, s, before)
  {
    if !last.cancelled {
      var c :| c in before && !c.cancelled && c.command == last.command;
      var i :| 0 <= i < |before| && before[i] == c;
      RepeatDelivery(digest, s, before, i, last);
    }
  }

  lemma RunSnoc(digest: Digester, s: Store, calls: seq<Call>, last: Call)
    ensures Run(digest, s, calls + [last]) == Transfer(digest, Run(digest, s, calls), last).0
  {
    assert (calls + [last])[..|calls|] == calls;
  }

  /** At-least-once delivery has exactly-once effect, from any well-formed store. */
  lemma {:induction false} ExactlyOnceEffect(digest: Digester, s: Store, calls: seq<Call>)
    requires WellFormed(s)
    ensures Run(digest, s, calls) == Run(digest, s, FirstDeliveries(calls))
  {
    if calls != [] {
      var before, last := calls[..|calls| - 1], calls[|calls| - 1];
      var first := FirstDeliveries(before);
      ExactlyOnceEffect(digest, s, before);
      assert before + [last] == calls;
      if last.cancelled || last.command in Delivered(before) {
        RedundantCall(digest, s, before, last);
        assert FirstDeliveries(calls) == first;
      } else {
        RunSnoc(digest, s, before, last);
        RunSnoc(digest, s, first, last);
      }
    }
  }

  /** A repeat may be inserted anywhere after the first delivery. */
  lemma RepeatAnywhere(digest: Digester, s: Store, before: seq<Call>, repeat: Call, after: seq<Call>)
    requires WellFormed(s) && (repeat.cancelled || repeat.command in Delivered(before))
    ensures Run(digest, s, before + [repeat] + after) == Run(digest, s, before + after)
  {
    RedundantCall(digest, s, before, repeat);
    RunSnoc(digest, s, before, repeat);
    RunSplit(digest, s, before + [repeat], after);
    RunSplit(digest, s, before, after);
  }

  lemma FreshLeaves(digest: Digester, u: Store, c: Call)
    requires WellFormed(u) && LedgerOfOriginals(u) && IsFresh(Transfer(digest, u, c).1)
    ensures var t, id := Transfer(digest, u, c).0, c.command.proposal.orderID;
            && c.command.key in t.transfers && id in t.orders && t.orders[id].status == ReadyToShip
  {
    TransferExactly(digest, u, c);
    FreshEffect(digest, u, c);
    hide Transfer, WellFormed, Authorised;
  }

  lemma FreshNeeds(digest: Digester, w: Store, d: Call)
    requires LedgerOfOriginals(w) && IsFresh(Transfer(digest, w, d).1)
    ensures var id := d.command.proposal.orderID;
            && d.command.key !in w.transfers && id in w.orders && w.orders[id].status == AwaitingFulfilment
  {
    TransferExactly(digest, w, d);
    hide Transfer, Authorised;
  }

  /** A fresh success rules out any later one for the same key or the same order. */
  lemma FreshExcludesLater(digest: Digester, u: Store, c: Call, w: Store, d: Call)
    requires WellFormed(u) && LedgerOfOriginals(u) && LedgerOfOriginals(w)
    requires Evolves(Transfer(digest, u, c).0, w)
    requires IsFresh(Transfer(digest, u, c).1) && IsFresh(Transfer(digest, w, d).1)
    ensures c.command.key != d.command.key && c.command.proposal.orderID != d.command.proposal.orderID
  {
    hide Transfer, WellFormed, Authorised, NextVersion, IsFresh;
    FreshLeaves(digest, u, c);
    FreshNeeds(digest, w, d);
    hide LedgerOfOriginals;
    var id := c.command.proposal.orderID;
    assert OrderEvolves(Transfer(digest, u, c).0.orders[id], w.orders[id]);
    hide Evolves;
  }

  /** Of the calls of one run at most one is fresh for any key, and at most one for any order. */
  lemma AtMostOneFresh(digest: Digester, s: Store, calls: seq<Call>, i: nat, j: nat)
    requires WellFormed(s) && LedgerOfOriginals(s) && i < j < |calls|
    requires IsFresh(OutcomeAt(digest, s, calls, i)) && IsFresh(OutcomeAt(digest, s, calls, j))
    ensures calls[i].command.key != calls[j].command.key
    ensures calls[i].command.proposal.orderID != calls[j].command.proposal.orderID
  {
    RunEvolvesBetween(digest, s, calls, i, i + 1);
    RunEvolvesBetween(digest, s, calls, i + 1, j);
    RunKeepsOriginals(digest, s, calls[..i]);
    RunKeepsOriginals(digest, s, calls[..j]);
    RunNext(digest, s, calls, i);
    hide Transfer, WellFormed, Evolves;
    FreshExcludesLater(digest, Run(digest, s, calls[..i]), calls[i], Run(digest, s, calls[..j]), calls[j]);
  }

  // ---------- a key that is used ----------

  /** Once a call has moved stock, any authorised call with its key is answered without moving
      anything: with that transfer exactly if the proposals share a digest, else with a conflict.
      Approver, permissions and request do not enter into it. */
  lemma UsedKeyAnswers(digest: Digester, s: Store, calls: seq<Call>, i: nat, other: Call)
    requires WellFormed(s) && LedgerOfOriginals(s) && i < |calls| && IsFresh(OutcomeAt(digest, s, calls, i))
    requires Authorised(digest, other) && other.command.key == calls[i].command.key
    ensures var (t, r) := Transfer(digest, Run(digest, s, calls), other);
            && t == Run(digest, s, calls)
            && r == if digest(other.command.proposal) == digest(calls[i].command.proposal)
                    then Ok(OutcomeAt(digest, s, calls, i).value.(alreadyApplied := true)) else Err(Conflict)
  {
    var u, v, t := Run(digest, s, calls[..i]), Run(digest, s, calls[..i + 1]), Run(digest, s, calls);
    hide WellFormed, Run, LedgerOfOriginals, Transfer, Authorised;
    RunKeepsOriginals(digest, s, calls[..i]);
    RunEvolvesBetween(digest, s, calls, i, i + 1);
    RunEvolvesBetween(digest, s, calls, i + 1, |calls|);
    RunNext(digest, s, calls, i);
    assert calls[..|calls|] == calls;
    FreshRecorded(digest, u, calls[i]);
    assert t.transfers[other.command.key] == v.transfers[other.command.key];
    hide Evolves;
    LedgerAnswers(digest, t, other);
  }

  lemma FreshRecorded(digest: Digester, u: Store, c: Call)
    requires WellFormed(u) && LedgerOfOriginals(u) && IsFresh(Transfer(digest, u, c).1)
    ensures var (t, r) := Transfer(digest, u, c);
            c.command.key in t.transfers && t.transfers[c.command.key] == Entry(digest(c.command.proposal), r.value)
  {
    FreshEffect(digest, u, c);
    hide Transfer, WellFormed;
  }

  lemma LedgerAnswers(digest: Digester, t: Store, other: Call)
    requires Authorised(digest, other) && other.command.key in t.transfers
    ensures var entry := t.transfers[other.command.key];
            Transfer(digest, t, other) ==
              (t, if entry.proposalDigest == digest(other.command.proposal)
                  then Ok(entry.result.(alreadyApplied := true)) else Err(Conflict))
  {
    assert PreCheck(digest, other) == None;
  }

  /** So the same proposal under the same key, approved by somebody else, is another command and
      is answered as if it were the first. */
  lemma AnotherApproverIsAnswered(digest: Digester, s: Store, calls: seq<Call>, i: nat, actor: string)
    requires WellFormed(s) && LedgerOfOriginals(s) && i < |calls| && IsFresh(OutcomeAt(digest, s, calls, i))
    requires actor != "" && actor != calls[i].command.approval.actor
    ensures var first, t := calls[i].command, Run(digest, s, calls);
            var other := first.(approval := first.approval.(actor := actor));
            && other != first
            && Transfer(digest, t, Call(false, other)) == (t, Ok(OutcomeAt(digest, s, calls, i).value.(alreadyApplied := true)))
  {
    var first := calls[i].command;
    RunKeepsOriginals(digest, s, calls[..i]);
    TransferExactly(digest, Run(digest, s, calls[..i]), calls[i]);
    hide Transfer, Run, WellFormed, ValidCommand;
    UsedKeyAnswers(digest, s, calls, i, Call(false, first.(approval := first.approval.(actor := actor))));
  }

  // ---------- versions ----------

  lemma NextVersionDiffers(v: Int)
    ensures NextVersion(v) != v
    ensures NextVersion(v) == v + 1 <==> v != MAX_INT
  {
  }

  /** Within one run a version names one record of an order, and changes at most once, by one step. */
  lemma VersionIdentifiesOrder(digest: Digester, s: Store, calls: seq<Call>, i: nat, j: nat, id: string)
    requires WellFormed(s) && i <= j <= |calls| && id in s.orders
    ensures var u, v := Run(digest, s, calls[..i]), Run(digest, s, calls[..j]);
            && id in u.orders && id in v.orders
            && (u.orders[id].version == v.orders[id].version <==> u.orders[id] == v.orders[id])
            && (v.orders[id].version == u.orders[id].version || v.orders[id].version == NextVersion(s.orders[id].version))
  {
    RunEvolvesBetween(digest, s, calls, 0, i);
    RunEvolvesBetween(digest, s, calls, i, j);
    RunEvolvesBetween(digest, s, calls, 0, j);
    var u, v := Run(digest, s, calls[..i]), Run(digest, s, calls[..j]);
    assert OrderEvolves(s.orders[id], u.orders[id]) && OrderEvolves(u.orders[id], v.orders[id]) && OrderEvolves(s.orders[id], v.orders[id]);
    NextVersionDiffers(u.orders[id].version);
  }
}
