/** A run of the workflow whose reads are threads among other threads, and the whole protocol whose
    gate is one too: under the lock, whatever the schedule, what they make of their threads' answers
    is what they would make of single steps. */
module Concurrent {
  import opened Text
  import opened TransferStore
  import opened EvidenceAssembly
  import opened Locking
  import opened Domain
  import opened Approval
  import P = Pipeline
  import R = Resolution

  /** The service call an event makes in the present state of the run, if it makes one. */
  function Asks(run: P.Run, event: P.Event): Option<Op> {
    if event.Others? then Some(TransferOp(event.call))
    else if run.failed then None
    else match event
      case Load(c, id) => if run.order.Some? then None else Some(OrderOp(c, id))
      case ReadPayment(c) =>
        if P.Checking(run, PaymentKind) then Some(PaymentOp(c, run.order.value.paymentID)) else None
      case ReadFulfilment(c) =>
        if P.Checking(run, FulfilmentKind) then Some(FulfilmentOp(c, run.order.value.id)) else None
      case ReadInventory(c) =>
        if !P.Checking(run, InventoryKind) || run.stockRead >= 2 || run.order.value.items == [] then None
        else
          var w := Warehouses(run.order.value)[run.stockRead];
          if exists x :: x in run.stock && x.warehouse == w then None else Some(StockOp(c, run.order.value.items[0].sku, w))
      case _ => None
  }

  /** An event of the run as the run itself takes it, on whatever store answers it. */
  function Taken(s: Store, run: P.Run, event: P.Event): P.Run {
    if event.Others? || run.failed then run else P.AdvanceRun(s, run, event)
  }

  /** What the run becomes depends on the store only through the answer to its call. */
  lemma AnswerDecides(digest: Digester, s: Store, t: Store, run: P.Run, event: P.Event)
    requires match Asks(run, event)
             case None => true
             case Some(op) => Perform(digest, s, op).1 == Perform(digest, t, op).1
    ensures Taken(s, run, event) == Taken(t, run, event)
  {
    hide KindsOf, IsBlank, InventoryKey, Transfer, Assemble;
    if Asks(run, event).Some? {
      var op := Asks(run, event).value;
      match event
      case Load(c, id) => assert GetOrder(s, c, id) == GetOrder(t, c, id);
      case ReadPayment(c) => assert GetPayment(s, c, run.order.value.paymentID) == GetPayment(t, c, run.order.value.paymentID);
      case ReadFulfilment(c) => assert GetFulfilment(s, c, run.order.value.id) == GetFulfilment(t, c, run.order.value.id);
      case ReadInventory(c) => assert GetInventory(s, c, op.sku, op.warehouse) == GetInventory(t, c, op.sku, op.warehouse);
      case _ =>
    }
  }

  /** The threads of the events that take the lock, in order. */
  function Threads(who: seq<Option<nat>>): seq<nat> {
    if who == [] then []
    else Threads(who[..|who| - 1]) + match who[|who| - 1] case None => [] case Some(i) => [i]
  }

  lemma ThreadsNext(who: seq<Option<nat>>, k: nat)
    requires k < |who|
    ensures Threads(who[..k + 1]) == Threads(who[..k]) + match who[k] case None => [] case Some(i) => [i]
  {
    assert who[..k + 1][..k] == who[..k];
  }

  lemma {:induction false} ThreadsPrefix(who: seq<Option<nat>>, k: nat)
    requires k <= |who|
    ensures Threads(who[..k]) <= Threads(who)
  {
    if k == |who| {
      assert who[..k] == who;
    } else {
      ThreadsPrefix(who[..|who| - 1], k);
      assert who[..|who| - 1][..k] == who[..k];
    }
  }

  lemma EventNext(digest: Digester, init: Store, events: seq<P.Event>, k: nat)
    requires k < |events|
    ensures P.AdvanceAll(digest, init, events[..k + 1]) == P.Advance(digest, P.AdvanceAll(digest, init, events[..k]), events[k])
  {
    assert events[..k + 1][..k] == events[..k];
  }

  lemma HistoryNext(digest: Digester, ops: seq<Op>, init: Store, history: seq<nat>, i: nat)
    requires Known(ops, history) && i < |ops|
    ensures Known(ops, history + [i])
    ensures After(digest, ops, init, history + [i]) == Perform(digest, After(digest, ops, init, history), ops[i]).0
  {
    AfterPrefix(digest, ops, init, history, i);
  }

  /** The thread of an event has its place in the history, and its answer is that of the sequential
      run at that place. */
  lemma ThreadAt(digest: Digester, ops: seq<Op>, init: Store, schedule: seq<nat>, who: seq<Option<nat>>, k: nat)
    requires Threads(who) == RunSchedule(digest, ops, init, schedule).history && k < |who| && who[k].Some?
    ensures var y, i := RunSchedule(digest, ops, init, schedule), who[k].value;
            && i < |ops| && Known(ops, Threads(who[..k]))
            && (y.places[i].Done? ==>
                  y.places[i].answer == Perform(digest, After(digest, ops, init, Threads(who[..k])), ops[i]).1)
  {
    var y, i := RunSchedule(digest, ops, init, schedule), who[k].value;
    var n := |Threads(who[..k])|;
    EveryRunIsSequential(digest, ops, init, schedule);
    ThreadsNext(who, k);
    ThreadsPrefix(who, k);
    ThreadsPrefix(who, k + 1);
    assert y.history[..n] == Threads(who[..k]) && y.history[n] == i;
    hide RunSchedule, Perform, After, Threads;
  }

  // ---------- a run over threads ----------

  /** One event of a run over threads. An event without a thread makes no call, or one that is
      answered before the lock; another client's transfer leaves the run as it is; a read of the run
      goes on from its thread's answer, as on any store that gives that answer. A read whose answer
      the run no longer wants, because another check has failed, or not yet has, is left aside. */
  ghost predicate RunTakes(
    digest: Digester, ops: seq<Op>, y: System, run: P.Run, event: P.Event, who: Option<nat>, next: P.Run)
    requires |y.places| == |ops|
  {
    match who
    case None =>
      && (Asks(run, event).Some? ==> EarlyAnswer(digest, Asks(run, event).value).Some?)
      && (exists t :: next == Taken(t, run, event))
    case Some(i) =>
      && i < |ops|
      && match Asks(run, event)
         case Some(op) =>
           op == ops[i]
           && if event.Others? then next == run
              else y.places[i].Done? && exists t :: Perform(digest, t, op).1 == y.places[i].answer && next == Taken(t, run, event)
         case None => !ops[i].TransferOp? && exists t :: next == Taken(t, run, event)
  }

  /** What a run becomes, event by event, from the answers its threads were given. */
  ghost predicate Executes(
    digest: Digester, ops: seq<Op>, y: System, events: seq<P.Event>, who: seq<Option<nat>>, runs: seq<P.Run>)
    requires |y.places| == |ops|
  {
    && |who| == |events| && |runs| == |events| + 1 && runs[0] == P.NOT_RUN
    && forall k | 0 <= k < |events| :: RunTakes(digest, ops, y, runs[k], events[k], who[k], runs[k + 1])
  }

  /** The store after a step that a thread made, or none. */
  function StoreAfter(digest: Digester, ops: seq<Op>, s: Store, who: Option<nat>): Store
    requires who.Some? ==> who.value < |ops|
  {
    match who case None => s case Some(i) => Perform(digest, s, ops[i]).0
  }

  lemma SameStep(
    digest: Digester, ops: seq<Op>, y: System, w: P.World, event: P.Event, who: Option<nat>, next: P.Run)
    requires |y.places| == |ops| && RunTakes(digest, ops, y, w.run, event, who, next)
    requires who.Some? && y.places[who.value].Done? ==> y.places[who.value].answer == Perform(digest, w.store, ops[who.value]).1
    ensures P.Advance(digest, w, event) == P.World(StoreAfter(digest, ops, w.store, who), next)
  {
    var asks := Asks(w.run, event);
    hide P.AdvanceRun, EarlyAnswer, P.Checking, Asks;
    if who.None? {
      if asks.Some? { EarlyAnswerIsAtomic(digest, w.store, asks.value); }
    }
    StepFromAnswer(digest, ops, y, w, event, who, next);
    StepStore(digest, w, event);
    hide Perform, Taken;
  }

  /** The store changes as the call of the event changes it. */
  lemma StepStore(digest: Digester, w: P.World, event: P.Event)
    ensures P.Advance(digest, w, event).run == Taken(w.store, w.run, event)
    ensures match Asks(w.run, event)
            case None => P.Advance(digest, w, event).store == w.store
            case Some(op) => P.Advance(digest, w, event).store == Perform(digest, w.store, op).0
  {
    hide P.AdvanceRun, P.Checking, Transfer;
  }

  lemma StepFromAnswer(
    digest: Digester, ops: seq<Op>, y: System, w: P.World, event: P.Event, who: Option<nat>, next: P.Run)
    requires |y.places| == |ops| && RunTakes(digest, ops, y, w.run, event, who, next)
    requires who.Some? && y.places[who.value].Done? ==> y.places[who.value].answer == Perform(digest, w.store, ops[who.value]).1
    ensures next == Taken(w.store, w.run, event)
  {
    if event.Others? {
    } else {
      var asks := Asks(w.run, event);
      hide Asks, EarlyAnswer;
      var t :| next == Taken(t, w.run, event) && (asks.Some? && who.Some? ==> Perform(digest, t, asks.value).1 == y.places[who.value].answer);
      if asks.Some? && who.None? {
        EarlyAnswerIsAtomic(digest, t, asks.value);
        EarlyAnswerIsAtomic(digest, w.store, asks.value);
      }
      hide Taken, Perform;
      AnswerDecides(digest, w.store, t, w.run, event);
    }
  }

  lemma StoreAfterNext(digest: Digester, ops: seq<Op>, init: Store, who: seq<Option<nat>>, k: nat)
    requires k < |who| && Known(ops, Threads(who[..k])) && (who[k].Some? ==> who[k].value < |ops|)
    ensures Known(ops, Threads(who[..k + 1]))
    ensures After(digest, ops, init, Threads(who[..k + 1])) == StoreAfter(digest, ops, After(digest, ops, init, Threads(who[..k])), who[k])
  {
    ThreadsNext(who, k);
    hide Threads, After, Perform;
    if who[k].Some? {
      HistoryNext(digest, ops, init, Threads(who[..k]), who[k].value);
    } else {
      assert Threads(who[..k]) + [] == Threads(who[..k]);
    }
  }

  /** Up to any of the events, the run over threads is the stepwise run. */
  lemma {:induction false} RunsAgree(
    digest: Digester, ops: seq<Op>, init: Store, schedule: seq<nat>,
    events: seq<P.Event>, who: seq<Option<nat>>, runs: seq<P.Run>, k: nat)
    requires Threads(who) == RunSchedule(digest, ops, init, schedule).history && k <= |events|
    requires Executes(digest, ops, RunSchedule(digest, ops, init, schedule), events, who, runs)
    ensures Known(ops, Threads(who[..k]))
    ensures P.AdvanceAll(digest, init, events[..k]) == P.World(After(digest, ops, init, Threads(who[..k])), runs[k])
  {
    if k == 0 {
      assert events[..0] == [] && who[..0] == [];
    } else {
      var n, y := k - 1, RunSchedule(digest, ops, init, schedule);
      RunsAgree(digest, ops, init, schedule, events, who, runs, n);
      assert RunTakes(digest, ops, y, runs[n], events[n], who[n], runs[n + 1]);
      hide RunSchedule, P.AdvanceAll, P.Advance, After, Perform, Threads, RunTakes, Executes, StoreAfter;
      if who[n].Some? { ThreadAt(digest, ops, init, schedule, who, n); }
      EventNext(digest, init, events, n);
      StoreAfterNext(digest, ops, init, who, n);
      SameStep(digest, ops, y, P.AdvanceAll(digest, init, events[..n]), events[n], who[n], runs[n + 1]);
    }
  }

  /** Under every schedule of the threads, and whichever of its checks fail or are still under way,
      what a run makes of its threads' answers is the run of the workflow in which each read and
      each transfer is one step, in the order of the lock; and while nobody writes that run has the
      store of the threads. */
  lemma LockedRunIsStepwise(
    digest: Digester, ops: seq<Op>, init: Store, schedule: seq<nat>,
    events: seq<P.Event>, who: seq<Option<nat>>, runs: seq<P.Run>)
    requires Threads(who) == RunSchedule(digest, ops, init, schedule).history
    requires Executes(digest, ops, RunSchedule(digest, ops, init, schedule), events, who, runs)
    ensures var y, w := RunSchedule(digest, ops, init, schedule), P.AdvanceAll(digest, init, events);
            w.run == runs[|events|] && (y.writer.None? ==> w.store == y.store)
  {
    RunsAgree(digest, ops, init, schedule, events, who, runs, |events|);
    EveryRunIsSequential(digest, ops, init, schedule);
    assert events[..|events|] == events && who[..|events|] == who;
    hide RunSchedule, P.AdvanceAll, After, Perform, Threads;
  }

  /** So what such a run has read lies between the first store and the present one. */
  lemma LockedReadsLieBetween(
    digest: Digester, ops: seq<Op>, init: Store, schedule: seq<nat>,
    events: seq<P.Event>, who: seq<Option<nat>>, runs: seq<P.Run>)
    requires WellFormed(init) && Threads(who) == RunSchedule(digest, ops, init, schedule).history
    requires Executes(digest, ops, RunSchedule(digest, ops, init, schedule), events, who, runs)
    requires RunSchedule(digest, ops, init, schedule).writer.None?
    ensures P.RunBetween(init, RunSchedule(digest, ops, init, schedule).store, runs[|events|])
  {
    LockedRunIsStepwise(digest, ops, init, schedule, events, who, runs);
    P.ReadsLieBetween(digest, init, events);
    hide RunSchedule, P.AdvanceAll, P.RunBetween, Threads;
  }

  // ---------- the protocol over threads ----------

  /** The protocol's own state, on a given store. */
  function On(p: R.State, s: Store): R.State { p.(world := p.world.(store := s)) }

  /** An event as the protocol itself takes it, on whatever store answers it. */
  function Moved(digest: Digester, p: R.State, s: Store, event: R.Event): R.State {
    On(R.Next(digest, On(p, s), event), p.world.store)
  }

  /** The call an event of the protocol makes: one of the run, or the gate's. */
  function Calls(digest: Digester, p: R.State, event: R.Event): Option<Op> {
    match event
    case Work(e) => Asks(p.world.run, e)
    case Execute(cancelled) =>
      if p.attempt.Watching? && p.attempt.loop.sent != [] && GateCalls(digest, p.world.run.prepared, p.attempt.loop.sent[0])
      then Some(TransferOp(GateCall(p.world.run.prepared.value, p.attempt.loop.sent[0], cancelled))) else None
    case _ => None
  }

  predicate ByOthers(event: R.Event) { event.Work? && event.step.Others? }

  lemma WorkDecides(digest: Digester, s: Store, t: Store, p: R.State, e: P.Event)
    requires match Asks(p.world.run, e)
             case None => true
             case Some(op) => e.Others? || Perform(digest, s, op).1 == Perform(digest, t, op).1
    ensures Moved(digest, p, s, R.Work(e)) == Moved(digest, p, t, R.Work(e))
  {
    if e.Others? {
      hide Transfer;
    } else {
      AnswerDecides(digest, s, t, p.world.run, e);
      hide Perform, Asks, P.AdvanceRun;
    }
  }

  lemma ExecuteDecides(digest: Digester, s: Store, t: Store, p: R.State, cancelled: bool)
    requires match Calls(digest, p, R.Execute(cancelled))
             case None => true
             case Some(op) => Perform(digest, s, op).1 == Perform(digest, t, op).1
    ensures Moved(digest, p, s, R.Execute(cancelled)) == Moved(digest, p, t, R.Execute(cancelled))
  {
    if p.attempt.Watching? && p.attempt.loop.sent != [] {
      var prepared, decision := p.world.run.prepared, p.attempt.loop.sent[0];
      GateOutcome(digest, s, t, prepared, decision, cancelled);
      hide Gate, GateCall, GateCalls, Transfer;
    }
  }

  lemma GateOutcome(
    digest: Digester, s: Store, t: Store, prepared: Option<ApprovalRequest>, decision: Decision, cancelled: bool)
    requires GateCalls(digest, prepared, decision) ==>
               var call := GateCall(prepared.value, decision, cancelled);
               Transfer(digest, s, call).1 == Transfer(digest, t, call).1
    ensures Gate(digest, s, prepared, decision, cancelled).1 == Gate(digest, t, prepared, decision, cancelled).1
  {
    hide Transfer, GateCall;
  }

  /** What the protocol does depends on the store only through the answer to its call. */
  lemma AnswerMoves(digest: Digester, s: Store, t: Store, p: R.State, event: R.Event)
    requires match Calls(digest, p, event)
             case None => true
             case Some(op) => ByOthers(event) || Perform(digest, s, op).1 == Perform(digest, t, op).1
    ensures Moved(digest, p, s, event) == Moved(digest, p, t, event)
  {
    match event
    case Work(e) => WorkDecides(digest, s, t, p, e);
    case Execute(cancelled) => ExecuteDecides(digest, s, t, p, cancelled);
    case _ => hide Perform;
  }

  /** The store changes as the call of the event changes it. */
  lemma ProtocolStore(digest: Digester, p: R.State, event: R.Event)
    ensures match Calls(digest, p, event)
            case None => R.Next(digest, p, event).world.store == p.world.store
            case Some(op) => R.Next(digest, p, event).world.store == Perform(digest, p.world.store, op).0
  {
    match event
    case Work(e) =>
      StepStore(digest, p.world, e);
      hide P.Advance, Asks, Perform;
    case Execute(cancelled) =>
      if p.attempt.Watching? && p.attempt.loop.sent != [] {
        GateTransfers(digest, p.world.store, p.world.run.prepared, p.attempt.loop.sent[0], cancelled);
        hide Gate, GateCall, GateCalls, Transfer;
      }
    case _ => hide Perform;
  }

  /** One event of the protocol over threads, as for a run; its gate is a thread too, and goes on
      from what its thread was answered. */
  ghost predicate ProtocolTakes(
    digest: Digester, ops: seq<Op>, y: System, p: R.State, event: R.Event, who: Option<nat>, next: R.State)
    requires |y.places| == |ops|
  {
    match who
    case None =>
      && (Calls(digest, p, event).Some? ==> EarlyAnswer(digest, Calls(digest, p, event).value).Some?)
      && (exists t :: next == Moved(digest, p, t, event))
    case Some(i) =>
      && i < |ops|
      && match Calls(digest, p, event)
         case Some(op) =>
           op == ops[i]
           && if ByOthers(event) then exists t :: next == Moved(digest, p, t, event)
              else y.places[i].Done? && exists t :: Perform(digest, t, op).1 == y.places[i].answer && next == Moved(digest, p, t, event)
         case None => !ops[i].TransferOp? && exists t :: next == Moved(digest, p, t, event)
  }

  /** The protocol, event by event, on the answers of its threads. */
  ghost predicate ProtocolExecutes(
    digest: Digester, ops: seq<Op>, init: Store, y: System, events: seq<R.Event>, who: seq<Option<nat>>, states: seq<R.State>)
    requires |y.places| == |ops|
  {
    && |who| == |events| && |states| == |events| + 1 && states[0] == R.Begin(init)
    && forall k | 0 <= k < |events| :: ProtocolTakes(digest, ops, y, states[k], events[k], who[k], states[k + 1])
  }

  lemma MovedFromAnswer(
    digest: Digester, ops: seq<Op>, y: System, p: R.State, s: Store, event: R.Event, who: Option<nat>, next: R.State)
    requires |y.places| == |ops| && ProtocolTakes(digest, ops, y, p, event, who, next)
    requires who.Some? && y.places[who.value].Done? ==> y.places[who.value].answer == Perform(digest, s, ops[who.value]).1
    ensures next == Moved(digest, p, s, event)
  {
    var calls := Calls(digest, p, event);
    hide Calls, EarlyAnswer, Moved, Perform;
    var t :| next == Moved(digest, p, t, event)
             && (calls.Some? && who.Some? && !ByOthers(event) ==> Perform(digest, t, calls.value).1 == y.places[who.value].answer);
    if calls.Some? && who.None? {
      EarlyAnswerIsAtomic(digest, t, calls.value);
      EarlyAnswerIsAtomic(digest, s, calls.value);
    }
    AnswerMoves(digest, s, t, p, event);
  }

  lemma OnKeepsCalls(digest: Digester, p: R.State, s: Store, event: R.Event)
    ensures Calls(digest, On(p, s), event) == Calls(digest, p, event)
  {
    hide Asks, GateCall, GateCalls;
  }

  lemma SameProtocolStep(
    digest: Digester, ops: seq<Op>, y: System, p: R.State, s: Store, event: R.Event, who: Option<nat>, next: R.State)
    requires |y.places| == |ops| && ProtocolTakes(digest, ops, y, p, event, who, next)
    requires who.Some? && y.places[who.value].Done? ==> y.places[who.value].answer == Perform(digest, s, ops[who.value]).1
    ensures R.Next(digest, On(p, s), event) == On(next, StoreAfter(digest, ops, s, who))
  {
    MovedFromAnswer(digest, ops, y, p, s, event, who, next);
    ProtocolStore(digest, On(p, s), event);
    OnKeepsCalls(digest, p, s, event);
    hide Calls, EarlyAnswer, R.Next;
    if who.None? {
      if Calls(digest, p, event).Some? { EarlyAnswerIsAtomic(digest, s, Calls(digest, p, event).value); }
      hide Perform;
    }
    assert R.Next(digest, On(p, s), event).world.store == StoreAfter(digest, ops, s, who);
    hide Perform, StoreAfter;
  }

  lemma ProtocolNext(digest: Digester, init: R.State, events: seq<R.Event>, k: nat)
    requires k < |events|
    ensures R.After(digest, init, events[..k + 1]) == R.Next(digest, R.After(digest, init, events[..k]), events[k])
  {
    assert events[..k + 1][..k] == events[..k];
  }

  /** Up to any of the events, the protocol over threads is the protocol. */
  lemma {:induction false} ProtocolsAgree(
    digest: Digester, ops: seq<Op>, init: Store, schedule: seq<nat>,
    events: seq<R.Event>, who: seq<Option<nat>>, states: seq<R.State>, k: nat)
    requires Threads(who) == RunSchedule(digest, ops, init, schedule).history && k <= |events|
    requires ProtocolExecutes(digest, ops, init, RunSchedule(digest, ops, init, schedule), events, who, states)
    ensures Known(ops, Threads(who[..k]))
    ensures R.After(digest, R.Begin(init), events[..k]) == On(states[k], After(digest, ops, init, Threads(who[..k])))
  {
    if k == 0 {
      assert events[..0] == [] && who[..0] == [];
    } else {
      var n, y := k - 1, RunSchedule(digest, ops, init, schedule);
      ProtocolsAgree(digest, ops, init, schedule, events, who, states, n);
      assert ProtocolTakes(digest, ops, y, states[n], events[n], who[n], states[n + 1]);
      hide RunSchedule, R.After, R.Next, R.Begin, After, Perform, Threads, ProtocolTakes, ProtocolExecutes, StoreAfter, On;
      if who[n].Some? { ThreadAt(digest, ops, init, schedule, who, n); }
      ProtocolNext(digest, R.Begin(init), events, n);
      StoreAfterNext(digest, ops, init, who, n);
      SameProtocolStep(digest, ops, y, states[n], After(digest, ops, init, Threads(who[..n])), events[n], who[n], states[n + 1]);
    }
  }

  /** Under every schedule of the threads that make the run's reads, the gate's calls and other
      clients' transfers, what the protocol makes of their answers is what it makes of single steps
      in the order of the lock; and while nobody writes, on the store of the threads. */
  lemma LockedProtocolIsStepwise(
    digest: Digester, ops: seq<Op>, init: Store, schedule: seq<nat>,
    events: seq<R.Event>, who: seq<Option<nat>>, states: seq<R.State>)
    requires Threads(who) == RunSchedule(digest, ops, init, schedule).history
    requires ProtocolExecutes(digest, ops, init, RunSchedule(digest, ops, init, schedule), events, who, states)
    ensures var y, p := RunSchedule(digest, ops, init, schedule), R.After(digest, R.Begin(init), events);
            p == On(states[|events|], p.world.store) && (y.writer.None? ==> p.world.store == y.store)
  {
    ProtocolsAgree(digest, ops, init, schedule, events, who, states, |events|);
    EveryRunIsSequential(digest, ops, init, schedule);
    assert events[..|events|] == events && who[..|events|] == who;
    hide RunSchedule, R.After, R.Begin, After, Perform, Threads;
  }

  /** So its manifest tells the truth about the store of the threads. */
  lemma LockedManifestTellsTruth(
    digest: Digester, ops: seq<Op>, init: Store, schedule: seq<nat>,
    events: seq<R.Event>, who: seq<Option<nat>>, states: seq<R.State>)
    requires Initial(init) && Threads(who) == RunSchedule(digest, ops, init, schedule).history
    requires ProtocolExecutes(digest, ops, init, RunSchedule(digest, ops, init, schedule), events, who, states)
    requires RunSchedule(digest, ops, init, schedule).writer.None?
    ensures var p, s := states[|events|], RunSchedule(digest, ops, init, schedule).store;
            p.disk.manifest.Some? ==>
              && p.disk.manifest.value.Whole?
              && var m := p.disk.manifest.value.run;
              m.result.Some? && m.result.value.status == TRANSFERRED ==>
                p.posted.Some? && R.Transferred(digest, s, p.posted.value, m.result.value)
  {
    LockedProtocolIsStepwise(digest, ops, init, schedule, events, who, states);
    R.ManifestTellsTruth(digest, init, events);
    hide RunSchedule, R.After, R.Begin, Threads, R.Transferred, Initial;
  }
}
