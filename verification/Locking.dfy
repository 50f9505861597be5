/** The services under concurrent callers. One reader/writer lock guards the five maps; a
    transfer's four map writes are separate steps, and any thread may run between any two
    steps of another. Every run matches a sequential run in the order the lock was taken. */
module Locking {
  import opened Text
  import opened Domain
  import opened TransferStore
  import opened Runs

  datatype Op =
    | TransferOp(call: Call)
    | OrderOp(cancelled: bool, id: string)
    | PaymentOp(cancelled: bool, id: string)
    | StockOp(cancelled: bool, sku: string, warehouse: string)
    | FulfilmentOp(cancelled: bool, id: string)

  datatype Answer =
    | TransferAnswer(transfer: Result<TransferResult>)
    | OrderAnswer(order: Result<Order>)
    | PaymentAnswer(payment: Result<Payment>)
    | StockAnswer(stock: Result<Inventory>)
    | FulfilmentAnswer(fulfilment: Result<Fulfilment>)

  // ---------- operations as single steps ----------

  function Perform(digest: Digester, s: Store, op: Op): (Store, Answer) {
    match op
    case TransferOp(call) => var (t, r) := Transfer(digest, s, call); (t, TransferAnswer(r))
    case OrderOp(c, id) => (s, OrderAnswer(GetOrder(s, c, id)))
    case PaymentOp(c, id) => (s, PaymentAnswer(GetPayment(s, c, id)))
    case StockOp(c, sku, w) => (s, StockAnswer(GetInventory(s, c, sku, w)))
    case FulfilmentOp(c, id) => (s, FulfilmentAnswer(GetFulfilment(s, c, id)))
  }

  predicate Known(ops: seq<Op>, history: seq<nat>) {
    forall p | 0 <= p < |history| :: history[p] < |ops|
  }

  /** The store after the operations of the named threads, one at a time. */
  function After(digest: Digester, ops: seq<Op>, init: Store, history: seq<nat>): Store
    requires Known(ops, history)
  {
    if history == [] then init
    else
      var n := |history| - 1;
      Perform(digest, After(digest, ops, init, history[..n]), ops[history[n]]).0
  }

  // ---------- operations as the threads run them ----------

  /** Where a thread is. The `Write` places carry the local variables still to be stored. */
  datatype Place =
    | Start
    | Waiting
    | Inside
    | WriteStock(order: Order, fulfilment: Fulfilment, target: Inventory)
    | WriteOrder(order: Order, fulfilment: Fulfilment)
    | WriteFulfilment(order: Order, fulfilment: Fulfilment)
    | WriteLedger(order: Order)
    | Leaving(answer: Answer)
    | Done(answer: Answer)

  /** `history` names the threads in the order they took the lock. */
  datatype System = System(store: Store, writer: Option<nat>, readers: set<nat>, places: seq<Place>, history: seq<nat>)

  /** The answer given without the lock, by the checks before it. */
  function EarlyAnswer(digest: Digester, op: Op): Option<Answer> {
    match op
    case TransferOp(call) =>
      (match PreCheck(digest, call) case Some(e) => Some(TransferAnswer(Err(e))) case None => None)
    case OrderOp(c, id) =>
      if c then Some(OrderAnswer(Err(Cancelled))) else if IsBlank(id) then Some(OrderAnswer(Err(InvalidArgument))) else None
    case PaymentOp(c, id) =>
      if c then Some(PaymentAnswer(Err(Cancelled))) else if IsBlank(id) then Some(PaymentAnswer(Err(InvalidArgument))) else None
    case StockOp(c, sku, w) =>
      if c then Some(StockAnswer(Err(Cancelled)))
      else if IsBlank(sku) || IsBlank(w) then Some(StockAnswer(Err(InvalidArgument))) else None
    case FulfilmentOp(c, id) =>
      if c then Some(FulfilmentAnswer(Err(Cancelled))) else if IsBlank(id) then Some(FulfilmentAnswer(Err(InvalidArgument))) else None
  }

  /** What a thread that holds the read lock finds in the maps. */
  function ReadAnswer(s: Store, op: Op): Answer
    requires !op.TransferOp?
  {
    match op
    case OrderOp(_, id) => OrderAnswer(if id in s.orders then Ok(s.orders[id]) else Err(NotFound))
    case PaymentOp(_, id) => PaymentAnswer(if id in s.payments then Ok(s.payments[id]) else Err(NotFound))
    case StockOp(_, sku, w) =>
      var k := InventoryKey(sku, w);
      StockAnswer(if k in s.inventory then Ok(s.inventory[k]) else Err(NotFound))
    case FulfilmentOp(_, id) => FulfilmentAnswer(if id in s.fulfilments then Ok(s.fulfilments[id]) else Err(NotFound))
  }

  /** Where the checks under the write lock send a transfer, with the records it read. */
  function Decide(digest: Digester, s: Store, c: Command): Place {
    if c.key in s.transfers then
      var prior := s.transfers[c.key];
      Leaving(TransferAnswer(
        if prior.proposalDigest != digest(c.proposal) then Err(Conflict)
        else Ok(prior.result.(alreadyApplied := true))))
    else match Guard(s, c.proposal)
      case Some(e) => Leaving(TransferAnswer(Err(e)))
      case None =>
        var order := s.orders[c.proposal.orderID];
        WriteStock(order, s.fulfilments[order.id], s.inventory[InventoryKey(c.proposal.sku, c.proposal.toWarehouse)])
  }

  /** One map write, or the release, of a transfer that passed its checks. */
  function WriteStep(digest: Digester, s: Store, c: Command, place: Place): (Store, Place)
    requires place.WriteStock? ==> 0 < c.proposal.quantity <= place.target.available
  {
    var p := c.proposal;
    match place
    case WriteStock(order, fulfilment, target) =>
      (s.(inventory := s.inventory[InventoryKey(p.sku, p.toWarehouse) := Drawn(target, p.quantity)]),
       WriteOrder(order, fulfilment))
    case WriteOrder(order, fulfilment) =>
      var moved := MovedOrder(order, p.toWarehouse);
      (s.(orders := s.orders[moved.id := moved]), WriteFulfilment(moved, fulfilment))
    case WriteFulfilment(order, fulfilment) =>
      (s.(fulfilments := s.fulfilments[order.id := MovedFulfilment(fulfilment, p.toWarehouse)]), WriteLedger(order))
    case WriteLedger(order) =>
      var result := TransferResult(order, c.key, false);
      (s.(transfers := s.transfers[c.key := Entry(digest(p), result)]), Leaving(TransferAnswer(Ok(result))))
    case _ => (s, place)
  }

  predicate Writable(c: Command, place: Place) {
    place.WriteStock? ==> 0 < c.proposal.quantity <= place.target.available
  }

  /** One step of thread `i`; a thread that cannot move leaves the system as it is. */
  function Step(digest: Digester, ops: seq<Op>, y: System, i: nat): System
    requires |y.places| == |ops|
  {
    if i >= |ops| then y else
    var op := ops[i];
    match y.places[i]
    case Start =>
      (match EarlyAnswer(digest, op)
       case Some(a) => y.(places := y.places[i := Done(a)])
       case None => y.(places := y.places[i := Waiting]))
    case Waiting =>
      if y.writer.Some? || (op.TransferOp? && y.readers != {}) then y
      else if op.TransferOp? then y.(writer := Some(i), places := y.places[i := Inside], history := y.history + [i])
      else y.(readers := y.readers + {i}, places := y.places[i := Inside], history := y.history + [i])
    case Inside =>
      y.(places := y.places[i :=
        if op.TransferOp? then Decide(digest, y.store, op.call.command) else Leaving(ReadAnswer(y.store, op))])
    case Leaving(a) =>
      if op.TransferOp? then y.(writer := None, places := y.places[i := Done(a)])
      else y.(readers := y.readers - {i}, places := y.places[i := Done(a)])
    case Done(_) => y
    case place =>
      if op.TransferOp? && Writable(op.call.command, place) then
        var (s, next) := WriteStep(digest, y.store, op.call.command, place);
        y.(store := s, places := y.places[i := next])
      else y
  }

  function Begin(ops: seq<Op>, init: Store): System {
    System(init, None, {}, seq(|ops|, _ => Start), [])
  }

  /** The system after the scheduler has picked the given threads, one step each. */
  function RunSchedule(digest: Digester, ops: seq<Op>, init: Store, schedule: seq<nat>): (y: System)
    ensures |y.places| == |ops|
  {
    if schedule == [] then Begin(ops, init)
    else Step(digest, ops, RunSchedule(digest, ops, init, schedule[..|schedule| - 1]), schedule[|schedule| - 1])
  }

  // ---------- the invariant ----------

  predicate Holding(place: Place) { !place.Start? && !place.Waiting? && !place.Done? }

  predicate Writing(place: Place) { place.WriteStock? || place.WriteOrder? || place.WriteFulfilment? || place.WriteLedger? }

  /** Each thread is named once, and only once it has taken the lock. */
  ghost predicate HistorySound(digest: Digester, ops: seq<Op>, y: System) {
    && |y.places| == |ops| && Known(ops, y.history)
    && (forall p, q | 0 <= p < q < |y.history| :: y.history[p] != y.history[q])
    && (forall i | 0 <= i < |ops| ::
          i in y.history <==> EarlyAnswer(digest, ops[i]).None? && !y.places[i].Start? && !y.places[i].Waiting?)
    && (forall i | 0 <= i < |ops| && EarlyAnswer(digest, ops[i]).Some? ::
          y.places[i].Start? || y.places[i] == Done(EarlyAnswer(digest, ops[i]).value))
  }

  /** One writer and no reader, or readers only. */
  ghost predicate LockSound(ops: seq<Op>, y: System)
    requires |y.places| == |ops|
  {
    && (y.writer.Some? ==>
          (&& y.readers == {} && y.writer.value < |ops|
           && ops[y.writer.value].TransferOp? && Holding(y.places[y.writer.value])
           && y.history != [] && y.history[|y.history| - 1] == y.writer.value))
    && (forall i | i in y.readers :: i < |ops| && !ops[i].TransferOp? && Holding(y.places[i]))
    && (forall i | 0 <= i < |ops| && Holding(y.places[i]) ::
          if ops[i].TransferOp? then y.writer == Some(i) else i in y.readers && !Writing(y.places[i]))
  }

  /** How far a transfer that started from `before` has come. */
  ghost predicate Progress(digest: Digester, before: Store, c: Command, place: Place, s: Store)
    requires c.proposal.quantity > 0
  {
    if Writing(place) then
      && c.key !in before.transfers && Guard(before, c.proposal).None?
      && var t := Apply(digest, before, c).0;
      var order := before.orders[c.proposal.orderID];
      var moved := MovedOrder(order, c.proposal.toWarehouse);
      match place
      case WriteStock(o, f, target) =>
        o == order && f == before.fulfilments[order.id] && s == before
        && target == before.inventory[InventoryKey(c.proposal.sku, c.proposal.toWarehouse)]
      case WriteOrder(o, f) =>
        o == order && f == before.fulfilments[order.id] && s == before.(inventory := t.inventory)
      case WriteFulfilment(o, f) =>
        o == moved && f == before.fulfilments[order.id] && s == before.(inventory := t.inventory, orders := t.orders)
      case WriteLedger(o) =>
        o == moved && s == before.(inventory := t.inventory, orders := t.orders, fulfilments := t.fulfilments)
    else if place.Leaving? then
      var (t, r) := Locked(digest, before, c);
      s == t && place.answer == TransferAnswer(r)
    else place.Inside? && s == before
  }

  ghost predicate StoreSound(digest: Digester, ops: seq<Op>, init: Store, y: System)
    requires HistorySound(digest, ops, y) && LockSound(ops, y)
  {
    match y.writer
    case None => y.store == After(digest, ops, init, y.history)
    case Some(w) =>
      && ops[w].call.command.proposal.quantity > 0
      && Progress(digest, After(digest, ops, init, y.history[..|y.history| - 1]), ops[w].call.command, y.places[w], y.store)
  }

  /** What thread `history[p]` has to show for its place in the order. */
  ghost predicate AnswerSound(digest: Digester, ops: seq<Op>, init: Store, y: System, p: nat)
    requires |y.places| == |ops| && Known(ops, y.history) && p < |y.history|
  {
    var i := y.history[p];
    var before := After(digest, ops, init, y.history[..p]);
    match y.places[i]
    case Done(a) => a == Perform(digest, before, ops[i]).1
    case Leaving(a) => a == Perform(digest, before, ops[i]).1
    case Inside => !ops[i].TransferOp? ==> y.store == before
    case _ => true
  }

  ghost predicate AnswersSound(digest: Digester, ops: seq<Op>, init: Store, y: System)
    requires |y.places| == |ops| && Known(ops, y.history)
  {
    forall p | 0 <= p < |y.history| :: AnswerSound(digest, ops, init, y, p)
  }

  ghost predicate Inv(digest: Digester, ops: seq<Op>, init: Store, y: System) {
    && HistorySound(digest, ops, y) && LockSound(ops, y)
    && StoreSound(digest, ops, init, y) && AnswersSound(digest, ops, init, y)
  }

  // ---------- single steps against single operations ----------

  /** A thread that answers early answers as the operation would in any state, and does nothing. */
  lemma EarlyAnswerIsAtomic(digest: Digester, s: Store, op: Op)
    requires EarlyAnswer(digest, op).Some?
    ensures Perform(digest, s, op) == (s, EarlyAnswer(digest, op).value)
  {
  }

  lemma ReadIsAtomic(digest: Digester, s: Store, op: Op)
    requires EarlyAnswer(digest, op).None? && !op.TransferOp?
    ensures Perform(digest, s, op) == (s, ReadAnswer(s, op))
  {
  }

  lemma TransferIsLocked(digest: Digester, s: Store, op: Op)
    requires EarlyAnswer(digest, op).None? && op.TransferOp?
    ensures op.call.command.proposal.quantity > 0
    ensures var (t, r) := Locked(digest, s, op.call.command); Perform(digest, s, op) == (t, TransferAnswer(r))
  {
  }

  lemma DecideProgresses(digest: Digester, before: Store, c: Command)
    requires c.proposal.quantity > 0
    ensures Progress(digest, before, c, Decide(digest, before, c), before)
  {
  }

  lemma WriteProgresses(digest: Digester, before: Store, c: Command, place: Place, s: Store)
    requires c.proposal.quantity > 0 && Writing(place) && Progress(digest, before, c, place, s)
    ensures Writable(c, place)
    ensures var (t, next) := WriteStep(digest, s, c, place);
            Progress(digest, before, c, next, t) && (Writing(next) || next.Leaving?)
  {
  }

  // ---------- every step keeps the invariant ----------

  lemma AfterPrefix(digest: Digester, ops: seq<Op>, init: Store, history: seq<nat>, i: nat)
    requires Known(ops, history) && i < |ops|
    ensures Known(ops, history + [i])
    ensures forall p | 0 <= p <= |history| :: (history + [i])[..p] == history[..p]
    ensures After(digest, ops, init, history + [i]) == Perform(digest, After(digest, ops, init, history), ops[i]).0
  {
    assert (history + [i])[..|history|] == history;
  }

  /** Answers of the threads that took the lock stay right while one other thread moves. */
  lemma OthersKeepAnswers(digest: Digester, ops: seq<Op>, init: Store, y: System, z: System, i: nat)
    requires Inv(digest, ops, init, y) && i < |ops|
    requires |z.places| == |ops| && Known(ops, z.history)
    requires forall j | 0 <= j < |ops| && j != i :: z.places[j] == y.places[j]
    requires |y.history| <= |z.history| && forall p | 0 <= p <= |y.history| :: z.history[..p] == y.history[..p]
    requires z.store == y.store || y.readers == {}
    ensures forall p | 0 <= p < |y.history| && y.history[p] != i :: AnswerSound(digest, ops, init, z, p)
  {
    forall p | 0 <= p < |y.history| && y.history[p] != i ensures AnswerSound(digest, ops, init, z, p) {
      assert AnswerSound(digest, ops, init, y, p);
      assert z.history[p] == z.history[..p + 1][p] == y.history[..p + 1][p] == y.history[p];
    }
  }

  /** The part of the invariant about who is where. */
  ghost predicate Control(digest: Digester, ops: seq<Op>, y: System) {
    HistorySound(digest, ops, y) && LockSound(ops, y)
  }

  lemma StartControl(digest: Digester, ops: seq<Op>, y: System, i: nat)
    requires Control(digest, ops, y) && i < |ops| && y.places[i].Start?
    ensures Control(digest, ops, Step(digest, ops, y, i))
  {
    hide EarlyAnswer;
    assert i !in y.history;
  }

  lemma TakeHistory(digest: Digester, ops: seq<Op>, y: System, i: nat, writer: Option<nat>, readers: set<nat>)
    requires HistorySound(digest, ops, y) && i < |ops| && y.places[i].Waiting?
    ensures HistorySound(digest, ops, y.(writer := writer, readers := readers, places := y.places[i := Inside], history := y.history + [i]))
  {
    hide EarlyAnswer;
    assert i !in y.history;
    var h := y.history + [i];
    forall j | 0 <= j < |ops| ensures j in h <==> j in y.history || j == i {}
  }

  lemma TakeControl(digest: Digester, ops: seq<Op>, y: System, i: nat)
    requires Control(digest, ops, y) && i < |ops| && y.places[i].Waiting?
    requires y.writer.None? && (ops[i].TransferOp? ==> y.readers == {})
    ensures Control(digest, ops, Step(digest, ops, y, i))
  {
    hide EarlyAnswer;
    var z := Step(digest, ops, y, i);
    TakeHistory(digest, ops, y, i, z.writer, z.readers);
    assert |y.places| == |ops|;
    hide HistorySound;
  }

  lemma StayControl(digest: Digester, ops: seq<Op>, y: System, i: nat, s: Store, place: Place)
    requires Control(digest, ops, y) && i < |ops| && Holding(y.places[i])
    requires Holding(place) && (Writing(place) ==> ops[i].TransferOp?)
    ensures Control(digest, ops, y.(store := s, places := y.places[i := place]))
  {
    hide EarlyAnswer;
  }

  lemma LeaveControl(digest: Digester, ops: seq<Op>, y: System, i: nat)
    requires Control(digest, ops, y) && i < |ops| && y.places[i].Leaving?
    ensures Control(digest, ops, Step(digest, ops, y, i))
  {
    hide EarlyAnswer;
  }

  lemma ControlSizes(digest: Digester, ops: seq<Op>, y: System)
    requires Control(digest, ops, y)
    ensures |y.places| == |ops| && Known(ops, y.history)
  {
  }

  lemma StartKeeps(digest: Digester, ops: seq<Op>, init: Store, y: System, i: nat)
    requires Inv(digest, ops, init, y) && i < |ops| && y.places[i].Start?
    ensures Inv(digest, ops, init, Step(digest, ops, y, i))
  {
    var z := Step(digest, ops, y, i);
    assert i !in y.history && y.writer != Some(i);
    StartControl(digest, ops, y, i);
    hide EarlyAnswer, Perform, Progress, After, HistorySound, LockSound, AnswerSound;
    ControlSizes(digest, ops, y);
    ControlSizes(digest, ops, z);
    assert StoreSound(digest, ops, init, z);
    OthersKeepAnswers(digest, ops, init, y, z, i);
  }

  /** Taking the lock starts an operation on the store as the history so far leaves it. */
  lemma TakeBegins(digest: Digester, ops: seq<Op>, init: Store, y: System, i: nat)
    requires |y.places| == |ops| && Known(ops, y.history) && i < |ops| && y.places[i].Waiting?
    requires y.writer.None? && (ops[i].TransferOp? ==> y.readers == {}) && EarlyAnswer(digest, ops[i]).None?
    requires y.store == After(digest, ops, init, y.history)
    ensures var z := Step(digest, ops, y, i);
            && |z.places| == |ops| && Known(ops, z.history) && z.history[..|y.history|] == y.history
            && AnswerSound(digest, ops, init, z, |y.history|)
            && (if ops[i].TransferOp?
                then ops[i].call.command.proposal.quantity > 0
                     && Progress(digest, After(digest, ops, init, y.history), ops[i].call.command, Inside, z.store)
                else z.store == After(digest, ops, init, z.history))
  {
    AfterPrefix(digest, ops, init, y.history, i);
    if ops[i].TransferOp? { TransferIsLocked(digest, y.store, ops[i]); } else { ReadIsAtomic(digest, y.store, ops[i]); }
    hide After, Perform, EarlyAnswer;
  }

  lemma TakeStore(digest: Digester, ops: seq<Op>, init: Store, y: System, i: nat)
    requires Inv(digest, ops, init, y) && i < |ops| && y.places[i].Waiting?
    requires y.writer.None? && (ops[i].TransferOp? ==> y.readers == {}) && EarlyAnswer(digest, ops[i]).None?
    requires Control(digest, ops, Step(digest, ops, y, i))
    ensures StoreSound(digest, ops, init, Step(digest, ops, y, i))
  {
    ControlSizes(digest, ops, y);
    hide Perform, After, Progress, AnswerSound, EarlyAnswer, HistorySound, LockSound, AnswersSound;
    TakeBegins(digest, ops, init, y, i);
  }

  lemma TakeAnswers(digest: Digester, ops: seq<Op>, init: Store, y: System, i: nat)
    requires Inv(digest, ops, init, y) && i < |ops| && y.places[i].Waiting? && i !in y.history
    requires y.writer.None? && (ops[i].TransferOp? ==> y.readers == {}) && EarlyAnswer(digest, ops[i]).None?
    ensures var z := Step(digest, ops, y, i);
            |z.places| == |ops| && Known(ops, z.history) && AnswersSound(digest, ops, init, z)
  {
    var z := Step(digest, ops, y, i);
    ControlSizes(digest, ops, y);
    assert y.store == After(digest, ops, init, y.history);
    hide Perform, After, Progress, AnswerSound, EarlyAnswer, HistorySound, LockSound, StoreSound;
    TakeBegins(digest, ops, init, y, i);
    AfterPrefix(digest, ops, init, y.history, i);
    assert z.store == y.store && z.history == y.history + [i];
    OthersKeepAnswers(digest, ops, init, y, z, i);
  }

  lemma TakeKeeps(digest: Digester, ops: seq<Op>, init: Store, y: System, i: nat)
    requires Inv(digest, ops, init, y) && i < |ops| && y.places[i].Waiting?
    requires y.writer.None? && (ops[i].TransferOp? ==> y.readers == {})
    ensures Inv(digest, ops, init, Step(digest, ops, y, i))
  {
    assert i !in y.history && EarlyAnswer(digest, ops[i]).None?;
    TakeControl(digest, ops, y, i);
    hide Step, EarlyAnswer, HistorySound, LockSound, StoreSound, AnswersSound;
    TakeStore(digest, ops, init, y, i);
    TakeAnswers(digest, ops, init, y, i);
  }

  /** The place in the history of a thread inside the lock. */
  lemma InsideAt(digest: Digester, ops: seq<Op>, init: Store, y: System, i: nat) returns (p: nat)
    requires Inv(digest, ops, init, y) && i < |ops| && Holding(y.places[i])
    ensures p < |y.history| && y.history[p] == i && EarlyAnswer(digest, ops[i]).None?
    ensures AnswerSound(digest, ops, init, y, p)
    ensures ops[i].TransferOp? ==> p == |y.history| - 1 && y.writer == Some(i) && y.readers == {}
    ensures forall q | 0 <= q < |y.history| && q != p :: y.history[q] != i
  {
    assert i in y.history;
    p :| 0 <= p < |y.history| && y.history[p] == i;
  }

  lemma ReadKeeps(digest: Digester, ops: seq<Op>, init: Store, y: System, i: nat)
    requires Inv(digest, ops, init, y) && i < |ops| && y.places[i].Inside? && !ops[i].TransferOp?
    ensures Inv(digest, ops, init, Step(digest, ops, y, i))
  {
    var z := Step(digest, ops, y, i);
    var p := InsideAt(digest, ops, init, y, i);
    ReadIsAtomic(digest, y.store, ops[i]);
    assert AnswerSound(digest, ops, init, z, p) && y.writer != Some(i);
    hide EarlyAnswer, Perform, After, ReadAnswer, HistorySound, LockSound, AnswerSound;
    StayControl(digest, ops, y, i, y.store, z.places[i]);
    ControlSizes(digest, ops, z);
    assert StoreSound(digest, ops, init, z);
    OthersKeepAnswers(digest, ops, init, y, z, i);
  }

  /** A step of the thread that holds the write lock. */
  lemma WriterKeeps(digest: Digester, ops: seq<Op>, init: Store, y: System, i: nat, s: Store, place: Place)
    requires Inv(digest, ops, init, y) && i < |ops| && ops[i].TransferOp? && Holding(y.places[i])
    requires Holding(place) && !place.Inside? && y.history != [] && ops[i].call.command.proposal.quantity > 0
    requires Progress(digest, After(digest, ops, init, y.history[..|y.history| - 1]), ops[i].call.command, place, s)
    ensures Inv(digest, ops, init, y.(store := s, places := y.places[i := place]))
  {
    var z := y.(store := s, places := y.places[i := place]);
    var p := InsideAt(digest, ops, init, y, i);
    TransferIsLocked(digest, After(digest, ops, init, y.history[..p]), ops[i]);
    assert AnswerSound(digest, ops, init, z, p);
    hide EarlyAnswer, Perform, After, Progress, HistorySound, LockSound, AnswerSound;
    StayControl(digest, ops, y, i, s, place);
    ControlSizes(digest, ops, z);
    assert StoreSound(digest, ops, init, z);
    OthersKeepAnswers(digest, ops, init, y, z, i);
  }

  lemma WriterStands(digest: Digester, ops: seq<Op>, init: Store, y: System, i: nat)
    requires Inv(digest, ops, init, y) && i < |ops| && ops[i].TransferOp? && Holding(y.places[i])
    ensures y.history != [] && Known(ops, y.history[..|y.history| - 1]) && ops[i].call.command.proposal.quantity > 0
    ensures Progress(digest, After(digest, ops, init, y.history[..|y.history| - 1]), ops[i].call.command, y.places[i], y.store)
  {
    hide AnswersSound, Progress;
  }

  lemma WriterMoves(digest: Digester, ops: seq<Op>, init: Store, y: System, i: nat)
    requires |y.places| == |ops| && Inv(digest, ops, init, y) && i < |ops| && ops[i].TransferOp?
    requires y.places[i].Inside? || Writing(y.places[i])
    ensures Inv(digest, ops, init, Step(digest, ops, y, i))
  {
    hide After, Perform, EarlyAnswer, Inv;
    WriterStands(digest, ops, init, y, i);
    var before, c := After(digest, ops, init, y.history[..|y.history| - 1]), ops[i].call.command;
    if y.places[i].Inside? {
      DecideProgresses(digest, before, c);
      WriterKeeps(digest, ops, init, y, i, y.store, Decide(digest, y.store, c));
    } else {
      WriteProgresses(digest, before, c, y.places[i], y.store);
      hide Progress, WriteStep;
      var (s, next) := WriteStep(digest, y.store, c, y.places[i]);
      WriterKeeps(digest, ops, init, y, i, s, next);
    }
  }

  lemma LeaveKeeps(digest: Digester, ops: seq<Op>, init: Store, y: System, i: nat)
    requires Inv(digest, ops, init, y) && i < |ops| && y.places[i].Leaving?
    ensures Inv(digest, ops, init, Step(digest, ops, y, i))
  {
    var z := Step(digest, ops, y, i);
    var p := InsideAt(digest, ops, init, y, i);
    if ops[i].TransferOp? {
      TransferIsLocked(digest, After(digest, ops, init, y.history[..p]), ops[i]);
      assert z.store == After(digest, ops, init, z.history);
    }
    assert AnswerSound(digest, ops, init, z, p);
    assert !ops[i].TransferOp? ==> y.writer != Some(i);
    LeaveControl(digest, ops, y, i);
    hide EarlyAnswer, Perform, After, Progress, AnswerSound, HistorySound, LockSound;
    ControlSizes(digest, ops, z);
    assert StoreSound(digest, ops, init, z);
    OthersKeepAnswers(digest, ops, init, y, z, i);
  }

  lemma StepKeepsInv(digest: Digester, ops: seq<Op>, init: Store, y: System, i: nat)
    requires Inv(digest, ops, init, y)
    ensures Inv(digest, ops, init, Step(digest, ops, y, i))
  {
    assert |y.places| == |ops|;
    hide HistorySound, StoreSound, AnswersSound, WriteStep, Decide, ReadAnswer;
    if i < |ops| {
      match y.places[i]
      case Start => StartKeeps(digest, ops, init, y, i);
      case Waiting =>
        if y.writer.None? && (ops[i].TransferOp? ==> y.readers == {}) { TakeKeeps(digest, ops, init, y, i); }
      case Inside =>
        if ops[i].TransferOp? { WriterMoves(digest, ops, init, y, i); } else { ReadKeeps(digest, ops, init, y, i); }
      case Leaving(_) => LeaveKeeps(digest, ops, init, y, i);
      case Done(_) =>
      case _ =>
        if ops[i].TransferOp? { WriterMoves(digest, ops, init, y, i); }
    }
  }

  lemma {:induction false} ScheduleKeepsInv(digest: Digester, ops: seq<Op>, init: Store, schedule: seq<nat>)
    ensures Inv(digest, ops, init, RunSchedule(digest, ops, init, schedule))
  {
    if schedule != [] {
      hide Inv, Step;
      var n := |schedule| - 1;
      ScheduleKeepsInv(digest, ops, init, schedule[..n]);
      StepKeepsInv(digest, ops, init, RunSchedule(digest, ops, init, schedule[..n]), schedule[n]);
    }
  }

  // ---------- what callers may rely on ----------

  /** However the threads interleave, the answers are those of one sequential run, in the order
      the lock was taken: no getter sees a half-applied transfer, and whenever no writer holds
      the lock the maps are those the sequential run leaves. */
  lemma EveryRunIsSequential(digest: Digester, ops: seq<Op>, init: Store, schedule: seq<nat>)
    ensures var y := RunSchedule(digest, ops, init, schedule);
            && Known(ops, y.history)
            && (forall p, q | 0 <= p < q < |y.history| :: y.history[p] != y.history[q])
            && (y.writer.None? ==> y.store == After(digest, ops, init, y.history))
            && (forall i | 0 <= i < |ops| && y.places[i].Done? ::
                  if i in y.history then
                    exists p :: 0 <= p < |y.history| && y.history[p] == i
                      && y.places[i].answer == Perform(digest, After(digest, ops, init, y.history[..p]), ops[i]).1
                  else forall s :: Perform(digest, s, ops[i]) == (s, y.places[i].answer))
  {
    ScheduleKeepsInv(digest, ops, init, schedule);
    var y := RunSchedule(digest, ops, init, schedule);
    forall i | 0 <= i < |ops| && y.places[i].Done?
      ensures if i in y.history then
                exists p :: 0 <= p < |y.history| && y.history[p] == i
                  && y.places[i].answer == Perform(digest, After(digest, ops, init, y.history[..p]), ops[i]).1
              else forall s :: Perform(digest, s, ops[i]) == (s, y.places[i].answer)
    {
      if i in y.history {
        var p :| 0 <= p < |y.history| && y.history[p] == i;
        assert AnswerSound(digest, ops, init, y, p);
      } else {
        assert EarlyAnswer(digest, ops[i]).Some?;
        forall s ensures Perform(digest, s, ops[i]) == (s, y.places[i].answer) { EarlyAnswerIsAtomic(digest, s, ops[i]); }
      }
    }
  }

  /** The order of the history is never revised. */
  lemma {:induction false} HistoryOnlyGrows(digest: Digester, ops: seq<Op>, init: Store, schedule: seq<nat>, more: seq<nat>)
    ensures RunSchedule(digest, ops, init, schedule).history <= RunSchedule(digest, ops, init, schedule + more).history
  {
    if more == [] {
      assert schedule + more == schedule;
    } else {
      HistoryOnlyGrows(digest, ops, init, schedule, more[..|more| - 1]);
      assert (schedule + more)[..|schedule + more| - 1] == schedule + more[..|more| - 1];
      hide EarlyAnswer, WriteStep, Decide, ReadAnswer;
    }
  }

  /** A thread that is done before another begins comes before it in the sequential run. */
  lemma RealTimeOrderKept(digest: Digester, ops: seq<Op>, init: Store, schedule: seq<nat>, more: seq<nat>, i: nat, j: nat)
    requires i < |ops| && j < |ops|
    requires RunSchedule(digest, ops, init, schedule).places[i].Done? && RunSchedule(digest, ops, init, schedule).places[j].Start?
    requires i in RunSchedule(digest, ops, init, schedule).history
    ensures var h := RunSchedule(digest, ops, init, schedule + more).history;
            && (exists p :: 0 <= p < |h| && h[p] == i)
            && (forall p, q | 0 <= p < |h| && 0 <= q < |h| && h[p] == i && h[q] == j :: p < q)
  {
    ScheduleKeepsInv(digest, ops, init, schedule);
    EveryRunIsSequential(digest, ops, init, schedule + more);
    HistoryOnlyGrows(digest, ops, init, schedule, more);
    var g, h := RunSchedule(digest, ops, init, schedule).history, RunSchedule(digest, ops, init, schedule + more).history;
    assert j !in g;
    var at :| 0 <= at < |g| && g[at] == i;
    hide RunSchedule, Inv, After, Perform;
    assert h[at] == i;
    assert forall q | 0 <= q < |g| :: h[q] == g[q] != j;
  }

  lemma OneOpEvolves(digest: Digester, s: Store, op: Op)
    requires WellFormed(s) && LedgerOfOriginals(s)
    ensures var t := Perform(digest, s, op).0; WellFormed(t) && LedgerOfOriginals(t) && Evolves(s, t)
  {
    hide WellFormed, LedgerOfOriginals, Transfer;
    if op.TransferOp? { OneCallEvolves(digest, s, op.call); } else { EvolvesReflexive(s); }
  }

  lemma {:induction false} AfterEvolves(digest: Digester, ops: seq<Op>, init: Store, history: seq<nat>, p: nat)
    requires WellFormed(init) && LedgerOfOriginals(init) && Known(ops, history) && p <= |history|
    ensures var s, t := After(digest, ops, init, history[..p]), After(digest, ops, init, history);
            WellFormed(s) && LedgerOfOriginals(s) && WellFormed(t) && LedgerOfOriginals(t) && Evolves(s, t)
  {
    hide Perform, WellFormed, LedgerOfOriginals, Evolves;
    if history == [] {
      EvolvesReflexive(init);
    } else {
      var n := |history| - 1;
      var u := After(digest, ops, init, history[..n]);
      var q := if p <= n then p else n;
      AfterEvolves(digest, ops, init, history[..n], q);
      assert history[..n][..q] == history[..q] && history[..|history|] == history;
      OneOpEvolves(digest, u, ops[history[n]]);
      var t := After(digest, ops, init, history);
      if p <= n { EvolvesTransitive(After(digest, ops, init, history[..p]), u, t); } else { EvolvesReflexive(t); }
    }
  }

  lemma EvolvesReflexive(s: Store)
    ensures Evolves(s, s)
  {
  }

  lemma OneCallEvolves(digest: Digester, s: Store, call: Call)
    requires WellFormed(s) && LedgerOfOriginals(s)
    ensures var t := Transfer(digest, s, call).0; WellFormed(t) && LedgerOfOriginals(t) && Evolves(s, t)
  {
    TransferKeepsWellFormed(digest, s, call);
    StepEvolves(digest, s, call);
    hide WellFormed, Evolves;
  }

  ghost predicate FreshlyDone(y: System, i: nat)
    requires i < |y.places|
  {
    y.places[i].Done? && y.places[i].answer.TransferAnswer? && IsFresh(y.places[i].answer.transfer)
  }

  lemma DoneLateTookLock(digest: Digester, ops: seq<Op>, init: Store, schedule: seq<nat>, i: nat)
    requires i < |ops| && ops[i].TransferOp? && FreshlyDone(RunSchedule(digest, ops, init, schedule), i)
    ensures i in RunSchedule(digest, ops, init, schedule).history
  {
    ScheduleKeepsInv(digest, ops, init, schedule);
    hide RunSchedule, LockSound, StoreSound, AnswersSound, PreCheck;
    assert EarlyAnswer(digest, ops[i]).None?;
  }

  /** A thread that returned a fresh success did so at its place in the sequential run. */
  lemma FreshAt(digest: Digester, ops: seq<Op>, init: Store, schedule: seq<nat>, i: nat) returns (p: nat)
    requires i < |ops| && ops[i].TransferOp? && FreshlyDone(RunSchedule(digest, ops, init, schedule), i)
    ensures var y := RunSchedule(digest, ops, init, schedule);
            && Known(ops, y.history) && p < |y.history| && y.history[p] == i
            && IsFresh(Transfer(digest, After(digest, ops, init, y.history[..p]), ops[i].call).1)
  {
    hide Transfer, After, RunSchedule;
    EveryRunIsSequential(digest, ops, init, schedule);
    var y := RunSchedule(digest, ops, init, schedule);
    DoneLateTookLock(digest, ops, init, schedule, i);
    p :| 0 <= p < |y.history| && y.history[p] == i
         && y.places[i].answer == Perform(digest, After(digest, ops, init, y.history[..p]), ops[i]).1;
  }

  lemma AfterNext(digest: Digester, ops: seq<Op>, init: Store, h: seq<nat>, p: nat)
    requires Known(ops, h) && p < |h|
    ensures After(digest, ops, init, h[..p + 1]) == Perform(digest, After(digest, ops, init, h[..p]), ops[h[p]]).0
  {
    assert h[..p + 1][..p] == h[..p];
  }

  lemma FreshPlacesExclude(digest: Digester, ops: seq<Op>, init: Store, h: seq<nat>, p: nat, q: nat)
    requires WellFormed(init) && LedgerOfOriginals(init) && Known(ops, h) && p < q < |h|
    requires ops[h[p]].TransferOp? && ops[h[q]].TransferOp?
    requires IsFresh(Transfer(digest, After(digest, ops, init, h[..p]), ops[h[p]].call).1)
    requires IsFresh(Transfer(digest, After(digest, ops, init, h[..q]), ops[h[q]].call).1)
    ensures ops[h[p]].call.command.key != ops[h[q]].call.command.key
    ensures ops[h[p]].call.command.proposal.orderID != ops[h[q]].call.command.proposal.orderID
  {
    hide WellFormed, LedgerOfOriginals, Evolves, Transfer, After;
    AfterEvolves(digest, ops, init, h[..q], p);
    AfterEvolves(digest, ops, init, h[..q], p + 1);
    assert h[..q][..p] == h[..p] && h[..q][..p + 1] == h[..p + 1];
    AfterNext(digest, ops, init, h, p);
    FreshExcludesLater(digest, After(digest, ops, init, h[..p]), ops[h[p]].call, After(digest, ops, init, h[..q]), ops[h[q]].call);
  }

  /** Of any number of concurrent calls, at most one returns a fresh success for one key, and at
      most one for one order. */
  lemma OneFreshAmongThreads(digest: Digester, ops: seq<Op>, init: Store, schedule: seq<nat>, i: nat, j: nat)
    requires WellFormed(init) && LedgerOfOriginals(init)
    requires i < |ops| && j < |ops| && i != j && ops[i].TransferOp? && ops[j].TransferOp?
    requires FreshlyDone(RunSchedule(digest, ops, init, schedule), i) && FreshlyDone(RunSchedule(digest, ops, init, schedule), j)
    ensures ops[i].call.command.key != ops[j].call.command.key
    ensures ops[i].call.command.proposal.orderID != ops[j].call.command.proposal.orderID
  {
    var p := FreshAt(digest, ops, init, schedule, i);
    var q := FreshAt(digest, ops, init, schedule, j);
    var h := RunSchedule(digest, ops, init, schedule).history;
    hide WellFormed, LedgerOfOriginals, Transfer, RunSchedule, After;
    if p < q { FreshPlacesExclude(digest, ops, init, h, p, q); } else { FreshPlacesExclude(digest, ops, init, h, q, p); }
  }

  /** Steps left before a thread is done, while nothing is in its way. */
  function StepsLeft(place: Place): nat {
    match place
    case Start => 8 case Waiting => 7 case Inside => 6
    case WriteStock(_, _, _) => 5 case WriteOrder(_, _) => 4 case WriteFulfilment(_, _) => 3 case WriteLedger(_) => 2
    case Leaving(_) => 1 case Done(_) => 0
  }

  /** Thread `j` has a step to take that brings it nearer its end. */
  predicate CanMove(digest: Digester, ops: seq<Op>, y: System, j: nat)
    requires |y.places| == |ops| && j < |ops|
  {
    StepsLeft(Step(digest, ops, y, j).places[j]) < StepsLeft(y.places[j])
  }

  lemma WritingMoves(digest: Digester, ops: seq<Op>, y: System, i: nat)
    requires |y.places| == |ops| && i < |ops| && ops[i].TransferOp? && Writing(y.places[i])
    requires Writable(ops[i].call.command, y.places[i])
    ensures CanMove(digest, ops, y, i)
  {
    hide EarlyAnswer, Decide, ReadAnswer;
  }

  /** Whoever holds the lock can go on. */
  lemma HolderMoves(digest: Digester, ops: seq<Op>, init: Store, y: System, i: nat)
    requires Inv(digest, ops, init, y) && |y.places| == |ops| && i < |ops| && Holding(y.places[i])
    ensures CanMove(digest, ops, y, i)
  {
    assert Writing(y.places[i]) ==> ops[i].TransferOp?;
    if Writing(y.places[i]) {
      WriterStands(digest, ops, init, y, i);
      WriteProgresses(digest, After(digest, ops, init, y.history[..|y.history| - 1]), ops[i].call.command, y.places[i], y.store);
      hide Inv, Progress, After, Step;
      WritingMoves(digest, ops, y, i);
    } else {
      hide Inv, After, Perform, EarlyAnswer, WriteStep, Progress;
    }
  }

  /** While nobody holds the lock, everybody can. */
  lemma FreeMoves(digest: Digester, ops: seq<Op>, init: Store, y: System, i: nat)
    requires Inv(digest, ops, init, y) && i < |ops| && !y.places[i].Done?
    requires forall j | 0 <= j < |ops| :: !Holding(y.places[j])
    ensures CanMove(digest, ops, y, i)
  {
    assert y.writer.None? && y.readers == {};
    hide Inv, EarlyAnswer, WriteStep, Decide, ReadAnswer;
  }

  /** The lock never leaves the threads stuck, whichever of those waiting for it is let in first:
      who holds it can go on, and while nobody does every unfinished thread can. */
  lemma NoDeadlock(digest: Digester, ops: seq<Op>, init: Store, schedule: seq<nat>)
    ensures var y := RunSchedule(digest, ops, init, schedule);
            && (forall i | 0 <= i < |ops| && Holding(y.places[i]) :: CanMove(digest, ops, y, i))
            && ((forall j | 0 <= j < |ops| :: !Holding(y.places[j])) ==>
                  forall i | 0 <= i < |ops| && !y.places[i].Done? :: CanMove(digest, ops, y, i))
  {
    var y := RunSchedule(digest, ops, init, schedule);
    ScheduleKeepsInv(digest, ops, init, schedule);
    hide Inv, CanMove, RunSchedule, Holding;
    forall i | 0 <= i < |ops| && Holding(y.places[i]) ensures CanMove(digest, ops, y, i) {
      HolderMoves(digest, ops, init, y, i);
    }
    if forall j | 0 <= j < |ops| :: !Holding(y.places[j]) {
      forall i | 0 <= i < |ops| && !y.places[i].Done? ensures CanMove(digest, ops, y, i) {
        FreeMoves(digest, ops, init, y, i);
      }
    }
  }

  // ---------- every call ends ----------

  function TotalLeft(places: seq<Place>): nat {
    if places == [] then 0 else TotalLeft(places[..|places| - 1]) + StepsLeft(places[|places| - 1])
  }

  lemma {:induction false} TotalAfter(places: seq<Place>, i: nat, place: Place)
    requires i < |places|
    ensures TotalLeft(places[i := place]) == TotalLeft(places) - StepsLeft(places[i]) + StepsLeft(place)
  {
    var n := |places| - 1;
    if i < n {
      TotalAfter(places[..n], i, place);
      assert places[i := place][..n] == places[..n][i := place];
    } else {
      assert places[i := place][..n] == places[..n];
    }
  }

  /** A step does nothing or brings its own thread, and no other, nearer its end. */
  lemma StepMovesOne(digest: Digester, ops: seq<Op>, y: System, i: nat)
    requires |y.places| == |ops|
    ensures var z := Step(digest, ops, y, i);
            z == y || (i < |ops| && z.places == y.places[i := z.places[i]] && StepsLeft(z.places[i]) < StepsLeft(y.places[i]))
  {
    hide EarlyAnswer, Drawn, MovedOrder, MovedFulfilment, Guard, ReadAnswer;
  }

  lemma StepShrinks(digest: Digester, ops: seq<Op>, y: System, i: nat)
    requires |y.places| == |ops|
    ensures var z := Step(digest, ops, y, i); z == y || TotalLeft(z.places) < TotalLeft(y.places)
  {
    StepMovesOne(digest, ops, y, i);
    hide Step;
    var z := Step(digest, ops, y, i);
    if z != y { TotalAfter(y.places, i, z.places[i]); }
  }

  /** The steps of a schedule that changed anything. */
  function Effective(digest: Digester, ops: seq<Op>, init: Store, schedule: seq<nat>): nat {
    if schedule == [] then 0
    else
      var n := |schedule| - 1;
      var y := RunSchedule(digest, ops, init, schedule[..n]);
      Effective(digest, ops, init, schedule[..n]) + if Step(digest, ops, y, schedule[n]) == y then 0 else 1
  }

  lemma {:induction false} NothingStarted(n: nat)
    ensures TotalLeft(seq(n, _ => Start)) == 8 * n
  {
    if n > 0 {
      NothingStarted(n - 1);
      assert seq(n, _ => Start)[..n - 1] == seq(n - 1, _ => Start);
    }
  }

  /** Every schedule is finite in effect: no more than eight steps for each call change anything. */
  lemma {:induction false} StepsRunOut(digest: Digester, ops: seq<Op>, init: Store, schedule: seq<nat>)
    ensures Effective(digest, ops, init, schedule) + TotalLeft(RunSchedule(digest, ops, init, schedule).places) <= 8 * |ops|
  {
    if schedule == [] {
      NothingStarted(|ops|);
    } else {
      var n := |schedule| - 1;
      StepsRunOut(digest, ops, init, schedule[..n]);
      hide Step, TotalLeft;
      StepShrinks(digest, ops, RunSchedule(digest, ops, init, schedule[..n]), schedule[n]);
    }
  }

  /** And from wherever a schedule has led, all calls can be brought to their end. */
  lemma {:induction false} EveryCallCanFinish(digest: Digester, ops: seq<Op>, init: Store, schedule: seq<nat>)
    returns (more: seq<nat>)
    ensures var y := RunSchedule(digest, ops, init, schedule + more); forall i | 0 <= i < |ops| :: y.places[i].Done?
    decreases TotalLeft(RunSchedule(digest, ops, init, schedule).places)
  {
    var y := RunSchedule(digest, ops, init, schedule);
    if forall i | 0 <= i < |ops| :: y.places[i].Done? {
      more := [];
      assert schedule + more == schedule;
    } else {
      var j := SomebodyMoves(digest, ops, init, schedule);
      StepShrinks(digest, ops, y, j);
      assert (schedule + [j])[..|schedule|] == schedule;
      hide Step, TotalLeft;
      var rest := EveryCallCanFinish(digest, ops, init, schedule + [j]);
      more := [j] + rest;
      assert schedule + more == schedule + [j] + rest;
    }
  }

  lemma SomebodyMoves(digest: Digester, ops: seq<Op>, init: Store, schedule: seq<nat>) returns (j: nat)
    requires exists i :: 0 <= i < |ops| && !RunSchedule(digest, ops, init, schedule).places[i].Done?
    ensures j < |ops| && Step(digest, ops, RunSchedule(digest, ops, init, schedule), j) != RunSchedule(digest, ops, init, schedule)
  {
    var y := RunSchedule(digest, ops, init, schedule);
    NoDeadlock(digest, ops, init, schedule);
    hide Step, RunSchedule, Holding;
    if forall i | 0 <= i < |ops| :: !Holding(y.places[i]) {
      j :| 0 <= j < |ops| && !y.places[j].Done?;
    } else {
      j :| 0 <= j < |ops| && Holding(y.places[j]);
    }
    assert CanMove(digest, ops, y, j);
  }
}
