/** The whole protocol as one state machine: the workflow run and its posted request, `Start`'s
    and `Resume`'s manifest, and any sequence of resume attempts on one service instance, each
    of which may stop at any point, while other clients go on transferring. */
module Resolution {
  import opened Text
  import opened Domain
  import opened TransferStore
  import opened Runs
  import opened Ledger
  import opened Validation
  import opened Approval
  import opened EventLoops
  import opened Manifest
  import Pipeline

  // ---------- the machine ----------

  /** A call the service received, and whether the gate of this workflow made it. */
  datatype Logged = Logged(own: bool, call: Call)

  /** The request `HumanApproval` posted for the prepared transfer. */
  datatype Posted = Posted(id: string, request: ApprovalRequest)

  /** What this process is doing; `outputs` are the outputs of the gate in this attempt. */
  datatype Attempt =
    | Idle
    | Watching(paused: PausedRun, who: Operator, loop: Resuming, outputs: seq<ResolutionResult>)
    | Writing(content: PausedRun, at: WritePoint)
    | Returned(result: ResolutionResult)

  datatype State = State(
    world: Pipeline.World, posted: Option<Posted>, started: bool,
    disk: Disk, attempt: Attempt, log: seq<Logged>)

  datatype Event =
    | Work(step: Pipeline.Event)
    | Post(id: string)
    | StartHalts(stream: seq<EventLoops.Event>, closed: bool)
    | BeginResume(who: Operator, opens: bool)
    | Deliver(event: EventLoops.Event)
    | Execute(cancelled: bool)
    | Halt(closed: bool)
    | Write(works: bool)
    | Stop

  /** A stored result as a later `Resume` returns it. */
  function Replayed(r: ResolutionResult): ResolutionResult {
    if r.transfer.None? then r else r.(transfer := Some(r.transfer.value.(alreadyApplied := true)))
  }

  /** A saved result returned once more: the same, but for a transfer marked as already applied. */
  ghost predicate ReturnedAgain(saved: ResolutionResult, r: ResolutionResult) {
    && r.status == saved.status && (r.transfer.Some? <==> saved.transfer.Some?)
    && (r.transfer.Some? ==>
          && r.transfer.value.order == saved.transfer.value.order
          && r.transfer.value.key == saved.transfer.value.key
          && r.transfer.value.alreadyApplied)
  }

  lemma ReplayedIsReturnedAgain(saved: ResolutionResult, r: ResolutionResult)
    ensures r == Replayed(saved) <==> ReturnedAgain(saved, r)
  {
  }

  /** The stream of a run only shows requests the run posted. */
  predicate OnlyPosted(posted: Option<Posted>, events: seq<EventLoops.Event>) {
    forall e | e in events && e.RequestInfo? && e.request.Some? :: posted == Some(Posted(e.requestID, e.request.value))
  }

  /** How `Resume` begins: the manifest, the short circuit for completed runs, the approver's
      name; `opens` says whether the saved checkpoint can be opened. */
  function Opened(disk: Disk, who: Operator, opens: bool): Attempt {
    match disk.manifest
    case Some(Whole(m)) =>
      if m.completed && m.result.Some? then Returned(Replayed(m.result.value))
      else if (who.approved && IsBlank(who.actor)) || !opens then Idle
      else Watching(m, who, RESUMING, [])
    case _ => Idle
  }

  /** An approver has a name. */
  predicate MayAnswer(who: Operator) { who.approved ==> !IsBlank(who.actor) }

  function AfterWrite(m: PausedRun, at: WritePoint): Attempt {
    match at
    case Saved => if m.result.Some? then Returned(m.result.value) else Idle
    case Refused => Idle
    case _ => Writing(m, at)
  }

  /** The gate runs on a decision that left the loop, and may run again on it. */
  function Executed(digest: Digester, p: State, cancelled: bool): State
    requires p.attempt.Watching? && p.attempt.loop.sent != []
  {
    var prepared, decision := p.world.run.prepared, p.attempt.loop.sent[0];
    var (t, r) := Gate(digest, p.world.store, prepared, decision, cancelled);
    p.(world := p.world.(store := t),
       log := if GateCalls(digest, prepared, decision)
              then p.log + [Logged(true, GateCall(prepared.value, decision, cancelled))] else p.log,
       attempt := if r.Ok? then p.attempt.(outputs := p.attempt.outputs + [r.value]) else p.attempt)
  }

  /** One event; an event that cannot happen in this state leaves it as it is. */
  function Next(digest: Digester, p: State, event: Event): State {
    match event
    case Work(e) =>
      p.(world := Pipeline.Advance(digest, p.world, e), log := if e.Others? then p.log + [Logged(false, e.call)] else p.log)
    case Post(id) =>
      if p.posted.Some? || p.world.run.prepared.None? then p
      else p.(posted := Some(Posted(id, p.world.run.prepared.value)))
    case StartHalts(events, closed) =>
      if p.started || !OnlyPosted(p.posted, events) then p
      else (match StartSaves(events, closed)
            case None => p.(started := true)
            case Some(m) => p.(started := true, attempt := Writing(m, ToOpen)))
    case BeginResume(who, opens) =>
      if p.attempt.Watching? || p.attempt.Writing? then p else p.(attempt := Opened(p.disk, who, opens))
    case Deliver(e) =>
      if !p.attempt.Watching? || p.attempt.loop.failed || (e.Output? && e.result.Some? && e.result.value !in p.attempt.outputs) then p
      else p.(attempt := p.attempt.(loop := OnResume(digest, p.attempt.paused.requestID, p.attempt.who, p.attempt.loop, e)))
    case Execute(cancelled) =>
      if !p.attempt.Watching? || p.attempt.loop.sent == [] then p else Executed(digest, p, cancelled)
    case Halt(closed) =>
      if !p.attempt.Watching? then p
      else (match ResumeSaves(p.attempt.loop, closed)
            case None => p.(attempt := Idle)
            case Some(r) => p.(attempt := Writing(p.attempt.paused.(completed := true, result := Some(r)), ToOpen)))
    case Write(works) =>
      if !p.attempt.Writing? then p
      else
        var (d, at) := WriteStep(p.attempt.content, p.disk, p.attempt.at, works);
        p.(disk := d, attempt := AfterWrite(p.attempt.content, at))
    case Stop => p.(attempt := Idle)
  }

  function Begin(init: Store): State {
    State(Pipeline.World(init, Pipeline.NOT_RUN), None, false, Disk(None, None), Idle, [])
  }

  function After(digest: Digester, p: State, events: seq<Event>): State {
    if events == [] then p
    else Next(digest, After(digest, p, events[..|events| - 1]), events[|events| - 1])
  }

  function Calls(log: seq<Logged>): seq<Call> { seq(|log|, i requires 0 <= i < |log| => log[i].call) }

  lemma CallsSnoc(log: seq<Logged>, entry: Logged)
    ensures Calls(log + [entry]) == Calls(log) + [entry.call]
  {
  }

  /** Stopping at any point, also between two file operations, loses the attempt and nothing else;
      the next attempt begins from what is on disk. */
  lemma StopLosesAttempt(digest: Digester, p: State, who: Operator, opens: bool)
    ensures var q := Next(digest, p, Stop);
            && q.attempt.Idle? && q.world == p.world && q.posted == p.posted && q.started == p.started
            && q.disk == p.disk && q.log == p.log
    ensures var again := Next(digest, Next(digest, p, Stop), BeginResume(who, opens));
            match p.disk.manifest
            case Some(Whole(m)) =>
              if m.completed && m.result.Some? then again.attempt.Returned? && ReturnedAgain(m.result.value, again.attempt.result)
              else if !opens || (who.approved && TrimSpace(who.actor) == "") then again.attempt.Idle?
              else again.attempt == Watching(m, who, Resuming(NO_RESULT, false, false, []), [])
            case _ => again.attempt.Idle?
  {
    BlankIsTrimmedAway(who.actor);
    hide IsBlank, TrimSpace;
  }

  /** When its stream ends, an attempt goes on to write the manifest it read, completed with the
      last output, exactly if nothing went wrong, the run closes well, a response was sent and that
      output has a status; else it is over, and either way nothing else changes. */
  lemma HaltEndsWatching(digest: Digester, p: State, closed: bool)
    requires p.attempt.Watching?
    ensures var q, loop, m := Next(digest, p, Halt(closed)), p.attempt.loop, p.attempt.paused;
            && q == p.(attempt := q.attempt)
            && if !loop.failed && closed && loop.responded && loop.result.status != "" then
                 q.attempt == Writing(PausedRun(m.sessionID, m.checkpoint, m.requestID, m.approval, true, Some(loop.result)), ToOpen)
               else q.attempt.Idle?
  {
  }

  /** `Start` ends once, and goes on to write exactly a manifest that its stream makes. */
  lemma StartEndsOnce(digest: Digester, p: State, stream: seq<EventLoops.Event>, closed: bool)
    requires OnlyPosted(p.posted, stream)
    ensures var q := Next(digest, p, StartHalts(stream, closed));
            && q.started && q == p.(started := true, attempt := q.attempt)
            && (p.started ==> q == p)
            && (!p.started && (!closed || !exists m :: Saveable(stream, m)) ==> q.attempt == p.attempt)
            && (forall m | !p.started && closed && Saveable(stream, m) :: q.attempt == Writing(m, ToOpen))
  {
    forall m ensures StartSaves(stream, closed) == Some(m) <==> closed && Saveable(stream, m) { StartSavesExactly(stream, closed, m); }
    hide Saveable, StartSaves, OnlyPosted;
  }

  // ---------- the invariant ----------

  /** The store is the run of the logged calls, and the workflow's reads lie behind it. */
  ghost predicate HistorySound(digest: Digester, init: Store, w: Pipeline.World, posted: Option<Posted>, log: seq<Logged>) {
    && WellFormed(w.store) && Evolves(init, w.store)
    && Pipeline.RunBetween(init, w.store, w.run)
    && w.store == Run(digest, init, Calls(log))
    && (posted.Some? ==> w.run.prepared == Some(posted.value.request))
  }

  /** A call of the gate: the prepared proposal under the one key, with an approval of that very
      proposal that answers the posted request, on evidence read before the call. */
  ghost predicate OwnSound(digest: Digester, init: Store, calls: seq<Call>, k: nat, posted: Posted, r: InvestigationResult)
    requires k < |calls|
  {
    var c := calls[k].command;
    && c.key == DEFAULT_KEY && c.proposal == posted.request.proposal
    && c.approval.approved && c.approval.proposalDigest == digest(c.proposal) && c.approval.requestID == posted.id
    && !IsBlank(c.approval.actor)
    && Accepts(r) && r.recommendation.proposal == Some(c.proposal)
    && Pipeline.EvidenceBetween(init, Run(digest, init, calls[..k]), r.evidence)
  }

  ghost predicate LogSound(digest: Digester, init: Store, result: Option<InvestigationResult>, posted: Option<Posted>, log: seq<Logged>) {
    forall k | 0 <= k < |log| && log[k].own ::
      posted.Some? && result.Some? && OwnSound(digest, init, Calls(log), k, posted.value, result.value)
  }

  /** A result that tells the truth about the ledger. */
  ghost predicate Reported(digest: Digester, s: Store, posted: Option<Posted>, r: ResolutionResult) {
    || r == REJECTED
    || (&& r.status == TRANSFERRED && r.transfer.Some? && posted.Some? && DEFAULT_KEY in s.transfers
        && s.transfers[DEFAULT_KEY].proposalDigest == digest(posted.value.request.proposal)
        && s.transfers[DEFAULT_KEY].result == r.transfer.value.(alreadyApplied := false))
  }

  /** A manifest, on disk or in memory, names the posted request and tells the truth. */
  ghost predicate PausedSound(digest: Digester, s: Store, posted: Option<Posted>, m: PausedRun) {
    && posted == Some(Posted(m.requestID, m.approval))
    && (m.completed <==> m.result.Some?)
    && (m.result.Some? ==> Reported(digest, s, posted, m.result.value))
  }

  ghost predicate DiskSound(digest: Digester, p: State) {
    && (!p.started ==> p.disk == Disk(None, None) && p.attempt.Idle?)
    && (p.disk.manifest.Some? ==>
          p.disk.manifest.value.Whole? && PausedSound(digest, p.world.store, p.posted, p.disk.manifest.value.run))
  }

  ghost predicate AllReported(digest: Digester, s: Store, posted: Option<Posted>, rs: seq<ResolutionResult>) {
    forall r | r in rs :: Reported(digest, s, posted, r)
  }

  ghost predicate Unfinished(disk: Disk) {
    disk.manifest.Some? && disk.manifest.value.Whole? ==> !disk.manifest.value.run.completed
  }

  ghost predicate AttemptSound(digest: Digester, s: Store, posted: Option<Posted>, disk: Disk, attempt: Attempt) {
    match attempt
    case Idle => true
    case Returned(r) => Reported(digest, s, posted, r)
    case Watching(m, who, loop, outputs) =>
      && Unfinished(disk) && PausedSound(digest, s, posted, m) && m.result.None?
      && MayAnswer(who) && SentOnce(digest, m.requestID, who, loop)
      && AllReported(digest, s, posted, outputs)
      && (loop.result == NO_RESULT || Reported(digest, s, posted, loop.result))
    case Writing(m, at) =>
      && Unfinished(disk) && PausedSound(digest, s, posted, m)
      && !at.Saved? && !at.Refused?
      && (at.ToRename? || at.ToRemove? || at.ToRetry? ==> disk.temp == Some(Whole(m)))
  }

  ghost predicate Inv(digest: Digester, init: Store, p: State) {
    && HistorySound(digest, init, p.world, p.posted, p.log)
    && LogSound(digest, init, p.world.run.result, p.posted, p.log) && DiskSound(digest, p)
    && AttemptSound(digest, p.world.store, p.posted, p.disk, p.attempt)
  }

  // ---------- the store moves on ----------

  lemma ReportedStays(digest: Digester, s: Store, t: Store, posted: Option<Posted>, r: ResolutionResult)
    requires Reported(digest, s, posted, r) && Evolves(s, t)
    ensures Reported(digest, t, posted, r)
  {
  }

  lemma PausedStays(digest: Digester, s: Store, t: Store, posted: Option<Posted>, m: PausedRun)
    requires PausedSound(digest, s, posted, m) && Evolves(s, t)
    ensures PausedSound(digest, t, posted, m)
  {
    hide Evolves, Reported;
    if m.result.Some? { ReportedStays(digest, s, t, posted, m.result.value); }
  }

  lemma AttemptStays(digest: Digester, s: Store, t: Store, posted: Option<Posted>, disk: Disk, attempt: Attempt)
    requires AttemptSound(digest, s, posted, disk, attempt) && Evolves(s, t)
    ensures AttemptSound(digest, t, posted, disk, attempt)
  {
    hide Evolves, Reported, PausedSound, SentOnce, Unfinished;
    match attempt
    case Idle =>
    case Returned(r) => ReportedStays(digest, s, t, posted, r);
    case Watching(m, who, loop, outputs) =>
      PausedStays(digest, s, t, posted, m);
      forall r | r in outputs ensures Reported(digest, t, posted, r) { ReportedStays(digest, s, t, posted, r); }
      if loop.result != NO_RESULT { ReportedStays(digest, s, t, posted, loop.result); }
    case Writing(m, at) => PausedStays(digest, s, t, posted, m);
  }

  /** Appending to the log leaves what is said of earlier entries. */
  lemma OwnStays(digest: Digester, init: Store, calls: seq<Call>, more: Call, k: nat, posted: Posted, r: InvestigationResult)
    requires k < |calls| && OwnSound(digest, init, calls, k, posted, r)
    ensures OwnSound(digest, init, calls + [more], k, posted, r)
  {
    assert (calls + [more])[..k] == calls[..k];
  }

  lemma LogGrows(digest: Digester, init: Store, p: State, q: State, entry: Logged)
    requires LogSound(digest, init, p.world.run.result, p.posted, p.log) && q.log == p.log + [entry]
    requires p.posted.Some? ==> q.posted == p.posted
    requires p.world.run.result.Some? ==> q.world.run.result == p.world.run.result
    requires entry.own ==>
               q.posted.Some? && q.world.run.result.Some?
               && OwnSound(digest, init, Calls(p.log) + [entry.call], |p.log|, q.posted.value, q.world.run.result.value)
    ensures LogSound(digest, init, q.world.run.result, q.posted, q.log)
  {
    CallsSnoc(p.log, entry);
    forall k | 0 <= k < |p.log| && p.log[k].own
      ensures p.posted.Some? && p.world.run.result.Some?
              && OwnSound(digest, init, Calls(p.log) + [entry.call], k, p.posted.value, p.world.run.result.value)
    {
      OwnStays(digest, init, Calls(p.log), entry.call, k, p.posted.value, p.world.run.result.value);
    }
    hide OwnSound, Calls;
  }

  // ---------- every event keeps the invariant ----------

  /** What is prepared stays prepared, and so does the result behind it. */
  lemma PreparedStays(digest: Digester, w: Pipeline.World, e: Pipeline.Event)
    ensures var v := Pipeline.Advance(digest, w, e);
            && (w.run.prepared.Some? ==> v.run.prepared == w.run.prepared)
            && (w.run.result.Some? ==> v.run.result == w.run.result)
  {
    hide Transfer;
  }

  /** One more call of the service, whoever made it. */
  lemma CallKeepsHistory(digest: Digester, init: Store, w: Pipeline.World, posted: Option<Posted>, log: seq<Logged>, entry: Logged)
    requires WellFormed(init) && HistorySound(digest, init, w, posted, log)
    ensures var t := Transfer(digest, w.store, entry.call).0;
            HistorySound(digest, init, w.(store := t), posted, log + [entry]) && Evolves(w.store, t)
  {
    hide Transfer, Evolves, WellFormed, Pipeline.RunBetween, Calls, Run;
    Pipeline.AdvanceKeeps(digest, init, w, Pipeline.Others(entry.call));
    StepEvolves(digest, w.store, entry.call);
    CallsSnoc(log, entry);
    RunSnoc(digest, init, Calls(log), entry.call);
  }

  lemma WorkKeepsHistory(digest: Digester, init: Store, p: State, e: Pipeline.Event)
    requires WellFormed(init) && HistorySound(digest, init, p.world, p.posted, p.log)
    ensures var q := Next(digest, p, Work(e));
            HistorySound(digest, init, q.world, q.posted, q.log) && Evolves(p.world.store, q.world.store)
  {
    if e.Others? {
      CallKeepsHistory(digest, init, p.world, p.posted, p.log, Logged(false, e.call));
    } else {
      PreparedStays(digest, p.world, e);
      Pipeline.AdvanceKeeps(digest, init, p.world, e);
      assert Evolves(p.world.store, p.world.store);
    }
    hide Transfer, Evolves, WellFormed, Pipeline.RunBetween, Pipeline.AdvanceRun, Calls, Run;
  }

  lemma WorkKeepsLog(digest: Digester, init: Store, p: State, e: Pipeline.Event)
    requires LogSound(digest, init, p.world.run.result, p.posted, p.log)
    ensures var q := Next(digest, p, Work(e)); LogSound(digest, init, q.world.run.result, q.posted, q.log)
  {
    PreparedStays(digest, p.world, e);
    if e.Others? { LogGrows(digest, init, p, Next(digest, p, Work(e)), Logged(false, e.call)); }
    hide Pipeline.AdvanceRun, Transfer, OwnSound, Calls;
  }

  lemma StoreMovesOn(digest: Digester, p: State, t: Store)
    requires DiskSound(digest, p) && AttemptSound(digest, p.world.store, p.posted, p.disk, p.attempt)
    requires Evolves(p.world.store, t)
    ensures p.disk.manifest.Some? ==>
              p.disk.manifest.value.Whole? && PausedSound(digest, t, p.posted, p.disk.manifest.value.run)
    ensures AttemptSound(digest, t, p.posted, p.disk, p.attempt)
  {
    hide Evolves, AttemptSound, PausedSound;
    AttemptStays(digest, p.world.store, t, p.posted, p.disk, p.attempt);
    if p.disk.manifest.Some? { PausedStays(digest, p.world.store, t, p.posted, p.disk.manifest.value.run); }
  }

  lemma WorkKeeps(digest: Digester, init: Store, p: State, e: Pipeline.Event)
    requires WellFormed(init) && Inv(digest, init, p)
    ensures Inv(digest, init, Next(digest, p, Work(e)))
  {
    WorkKeepsHistory(digest, init, p, e);
    WorkKeepsLog(digest, init, p, e);
    StoreMovesOn(digest, p, Next(digest, p, Work(e)).world.store);
    hide HistorySound, LogSound, Evolves, AttemptSound, PausedSound, Pipeline.Advance;
  }

  /** The request is posted while nothing yet refers to one. */
  lemma PostKeeps(digest: Digester, init: Store, p: State, id: string)
    requires Inv(digest, init, p)
    ensures Inv(digest, init, Next(digest, p, Post(id)))
  {
    hide OwnSound, WellFormed, Evolves, Pipeline.RunBetween, Run, Calls, SentOnce;
  }

  /** What `Start` saves names the request that was posted. */
  lemma StartSavesPosted(digest: Digester, s: Store, posted: Option<Posted>, stream: seq<EventLoops.Event>, closed: bool)
    requires OnlyPosted(posted, stream) && StartSaves(stream, closed).Some?
    ensures PausedSound(digest, s, posted, StartSaves(stream, closed).value)
  {
    StartSavesOnlyDurablePause(stream, closed);
    var m := StartSaves(stream, closed).value;
    hide StartSaves;
    var e :| e in stream && Requested(e, m.requestID, m.approval);
    assert posted == Some(Posted(e.requestID, e.request.value));
  }

  lemma StartHaltsKeeps(digest: Digester, init: Store, p: State, stream: seq<EventLoops.Event>, closed: bool)
    requires Inv(digest, init, p)
    ensures Inv(digest, init, Next(digest, p, StartHalts(stream, closed)))
  {
    hide LogSound, HistorySound, StartSaves, SentOnce, Reported, PausedSound, OnlyPosted;
    if OnlyPosted(p.posted, stream) && StartSaves(stream, closed).Some? {
      StartSavesPosted(digest, p.world.store, p.posted, stream, closed);
    }
  }

  lemma BeginResumeKeeps(digest: Digester, init: Store, p: State, who: Operator, opens: bool)
    requires Inv(digest, init, p)
    ensures Inv(digest, init, Next(digest, p, BeginResume(who, opens)))
  {
    hide LogSound, HistorySound;
  }

  lemma ResultFromOutput(digest: Digester, wanted: string, who: Operator, st: Resuming, e: EventLoops.Event)
    ensures var after := OnResume(digest, wanted, who, st, e);
            after.result == st.result || (e.Output? && e.result == Some(after.result))
  {
  }

  lemma DeliverKeeps(digest: Digester, init: Store, p: State, e: EventLoops.Event)
    requires Inv(digest, init, p)
    ensures Inv(digest, init, Next(digest, p, Deliver(e)))
  {
    if p.attempt.Watching? && !p.attempt.loop.failed {
      OnResumeSendsOnce(digest, p.attempt.paused.requestID, p.attempt.who, p.attempt.loop, e);
      ResultFromOutput(digest, p.attempt.paused.requestID, p.attempt.who, p.attempt.loop, e);
    }
    hide LogSound, HistorySound, DiskSound, SentOnce, PausedSound, Reported, Unfinished, OnResume;
  }

  lemma HaltKeeps(digest: Digester, init: Store, p: State, closed: bool)
    requires Inv(digest, init, p)
    ensures Inv(digest, init, Next(digest, p, Halt(closed)))
  {
    hide LogSound, HistorySound, SentOnce, Reported, Unfinished;
  }

  lemma WriteKeeps(digest: Digester, init: Store, p: State, works: bool)
    requires Inv(digest, init, p)
    ensures Inv(digest, init, Next(digest, p, Write(works)))
  {
    hide LogSound, HistorySound, Reported;
  }

  /** What the gate logs is a call of the prepared proposal on the decision that was sent. */
  lemma ExecuteLogs(digest: Digester, init: Store, p: State, cancelled: bool)
    requires Inv(digest, init, p) && p.attempt.Watching? && p.attempt.loop.sent != []
    requires GateCalls(digest, p.world.run.prepared, p.attempt.loop.sent[0])
    ensures var call := GateCall(p.world.run.prepared.value, p.attempt.loop.sent[0], cancelled);
            && p.posted.Some? && p.world.run.result.Some?
            && OwnSound(digest, init, Calls(p.log) + [call], |p.log|, p.posted.value, p.world.run.result.value)
  {
    var decision := p.attempt.loop.sent[0];
    var call := GateCall(p.world.run.prepared.value, decision, cancelled);
    assert decision in p.attempt.loop.sent;
    assert (Calls(p.log) + [call])[..|p.log|] == Calls(p.log);
    hide Run, WellFormed, Evolves, Accepts, Pipeline.EvidenceBetween, LogSound, Pipeline.StockFor;
  }

  lemma ExecuteKeepsHistory(digest: Digester, init: Store, p: State, cancelled: bool)
    requires WellFormed(init) && HistorySound(digest, init, p.world, p.posted, p.log) && p.attempt.Watching? && p.attempt.loop.sent != []
    ensures var q := Executed(digest, p, cancelled);
            HistorySound(digest, init, q.world, q.posted, q.log) && Evolves(p.world.store, q.world.store)
  {
    var prepared, decision := p.world.run.prepared, p.attempt.loop.sent[0];
    GateTransfers(digest, p.world.store, prepared, decision, cancelled);
    if GateCalls(digest, prepared, decision) {
      CallKeepsHistory(digest, init, p.world, p.posted, p.log, Logged(true, GateCall(prepared.value, decision, cancelled)));
    } else {
      assert Evolves(p.world.store, p.world.store);
    }
    hide Transfer, Evolves, HistorySound, GateCall, Gate, GateCalls;
  }

  lemma ExecuteReports(digest: Digester, init: Store, p: State, cancelled: bool)
    requires Initial(init) && HistorySound(digest, init, p.world, p.posted, p.log) && p.attempt.Watching? && p.attempt.loop.sent != []
    requires p.world.run.prepared.Some? ==> p.posted.Some?
    ensures var (t, r) := Gate(digest, p.world.store, p.world.run.prepared, p.attempt.loop.sent[0], cancelled);
            r.Ok? ==> Reported(digest, t, p.posted, r.value)
  {
    RunKeepsOriginals(digest, init, Calls(p.log));
    GateMeans(digest, p.world.store, p.world.run.prepared, p.attempt.loop.sent[0], cancelled);
    hide Gate, Run, Calls, WellFormed, Evolves, Pipeline.RunBetween;
  }

  lemma ExecuteKeepsLog(digest: Digester, init: Store, p: State, cancelled: bool)
    requires Inv(digest, init, p) && p.attempt.Watching? && p.attempt.loop.sent != []
    ensures var q := Executed(digest, p, cancelled); LogSound(digest, init, q.world.run.result, q.posted, q.log)
  {
    var prepared, decision := p.world.run.prepared, p.attempt.loop.sent[0];
    if GateCalls(digest, prepared, decision) {
      ExecuteLogs(digest, init, p, cancelled);
      LogGrows(digest, init, p, Executed(digest, p, cancelled), Logged(true, GateCall(prepared.value, decision, cancelled)));
    }
    hide HistorySound, OwnSound, Calls, AttemptSound, DiskSound, Gate, GateCalls, GateCall;
  }

  lemma OutputsGrow(digest: Digester, s: Store, posted: Option<Posted>, disk: Disk, attempt: Attempt, r: ResolutionResult)
    requires attempt.Watching? && AttemptSound(digest, s, posted, disk, attempt) && Reported(digest, s, posted, r)
    ensures AttemptSound(digest, s, posted, disk, attempt.(outputs := attempt.outputs + [r]))
  {
    hide PausedSound, SentOnce, Reported, Unfinished;
  }

  lemma ExecuteKeepsAttempt(digest: Digester, init: Store, p: State, cancelled: bool)
    requires Initial(init) && HistorySound(digest, init, p.world, p.posted, p.log) && (p.world.run.prepared.Some? ==> p.posted.Some?)
    requires p.attempt.Watching? && p.attempt.loop.sent != []
    requires AttemptSound(digest, Executed(digest, p, cancelled).world.store, p.posted, p.disk, p.attempt)
    ensures var q := Executed(digest, p, cancelled); AttemptSound(digest, q.world.store, p.posted, p.disk, q.attempt)
  {
    var r := Gate(digest, p.world.store, p.world.run.prepared, p.attempt.loop.sent[0], cancelled).1;
    ExecuteReports(digest, init, p, cancelled);
    hide Initial, HistorySound, AttemptSound, Reported, Gate, GateCalls, GateCall;
    if r.Ok? { OutputsGrow(digest, Executed(digest, p, cancelled).world.store, p.posted, p.disk, p.attempt, r.value); }
  }

  lemma ExecuteKeeps(digest: Digester, init: Store, p: State, cancelled: bool)
    requires Initial(init) && Inv(digest, init, p)
    ensures Inv(digest, init, Next(digest, p, Execute(cancelled)))
  {
    if p.attempt.Watching? && p.attempt.loop.sent != [] {
      var q := Executed(digest, p, cancelled);
      assert p.world.run.prepared.Some? ==> p.posted.Some?;
      hide Initial, HistorySound, LogSound, Evolves, AttemptSound, PausedSound, Gate, GateCalls, GateCall;
      assert Next(digest, p, Execute(cancelled)) == q && q.posted == p.posted && q.started == p.started && q.disk == p.disk;
      ExecuteKeepsHistory(digest, init, p, cancelled);
      ExecuteKeepsLog(digest, init, p, cancelled);
      StoreMovesOn(digest, p, q.world.store);
      ExecuteKeepsAttempt(digest, init, p, cancelled);
      hide Executed, Next;
    }
  }

  lemma NextKeeps(digest: Digester, init: Store, p: State, event: Event)
    requires Initial(init) && Inv(digest, init, p)
    ensures Inv(digest, init, Next(digest, p, event))
  {
    match event
    case Work(e) => WorkKeeps(digest, init, p, e);
    case Post(id) => PostKeeps(digest, init, p, id);
    case StartHalts(stream, closed) => StartHaltsKeeps(digest, init, p, stream, closed);
    case BeginResume(who, opens) => BeginResumeKeeps(digest, init, p, who, opens);
    case Deliver(e) => DeliverKeeps(digest, init, p, e);
    case Execute(cancelled) => ExecuteKeeps(digest, init, p, cancelled);
    case Halt(closed) => HaltKeeps(digest, init, p, closed);
    case Write(works) => WriteKeeps(digest, init, p, works);
    case Stop => StopKeeps(digest, init, p);
  }

  lemma StopKeeps(digest: Digester, init: Store, p: State)
    requires Inv(digest, init, p)
    ensures Inv(digest, init, Next(digest, p, Stop))
  {
    hide HistorySound, LogSound, PausedSound;
  }

  lemma {:induction false} AfterKeepsInv(digest: Digester, init: Store, p: State, events: seq<Event>)
    requires Initial(init) && Inv(digest, init, p)
    ensures Inv(digest, init, After(digest, p, events))
  {
    if events != [] {
      AfterKeepsInv(digest, init, p, events[..|events| - 1]);
      hide Inv, Next, Initial;
      NextKeeps(digest, init, After(digest, p, events[..|events| - 1]), events[|events| - 1]);
    }
  }

  /** Every state the protocol can reach from an initial store. */
  lemma ReachableIsSound(digest: Digester, init: Store, events: seq<Event>)
    requires Initial(init)
    ensures Inv(digest, init, After(digest, Begin(init), events))
  {
    assert Inv(digest, init, Begin(init));
    hide Inv, Begin, Initial;
    AfterKeepsInv(digest, init, Begin(init), events);
  }

  // ---------- what holds in every reachable state ----------

  /** Whatever the reasoner proposed, whoever else used the store and however the attempts went:
      each call of the gate is for the one proposal that the validator accepted on this run's
      evidence and that was prepared before the request was posted, with an approval of its digest
      that answers that request; and a call that moved stock was authorised and found the store as
      the evidence has it. */
  lemma ResolutionIsSafe(digest: Digester, init: Store, events: seq<Event>, k: nat)
    requires Initial(init)
    requires var p := After(digest, Begin(init), events); k < |p.log| && p.log[k].own
    ensures var p := After(digest, Begin(init), events);
            && p.posted.Some? && p.world.run.result.Some?
            && p.world.store == Run(digest, init, Calls(p.log))
            && var r, call := p.world.run.result.value, p.log[k].call;
            var before, e, q := Run(digest, init, Calls(p.log)[..k]), r.evidence, call.command.proposal;
            && Accepts(r) && r.recommendation.proposal == Some(q) && p.posted.value.request.proposal == q
            && call.command.key == DEFAULT_KEY
            && call.command.approval.approved && call.command.approval.proposalDigest == digest(q)
            && call.command.approval.requestID == p.posted.value.id
            && (IsFresh(OutcomeAt(digest, init, Calls(p.log), k)) ==>
                  && Authorised(digest, call)
                  && q.orderID == e.order.id && q.orderID in before.orders && before.orders[q.orderID] == e.order
                  && e.order.paymentID in before.payments && before.payments[e.order.paymentID] == e.payment
                  && q.orderID in before.fulfilments && before.fulfilments[q.orderID] == e.fulfilment
                  && DrawsOwnStock(before, q)
                  && before.inventory[InventoryKey(q.sku, q.toWarehouse)].available >= q.quantity)
  {
    ReachableIsSound(digest, init, events);
    var p := After(digest, Begin(init), events);
    hide After, Begin;
    var r, call, before := p.world.run.result.value, p.log[k].call, Run(digest, init, Calls(p.log)[..k]);
    assert OwnSound(digest, init, Calls(p.log), k, p.posted.value, r);
    if IsFresh(OutcomeAt(digest, init, Calls(p.log), k)) {
      RunKeepsOriginals(digest, init, Calls(p.log)[..k]);
      RunEvolves(digest, init, Calls(p.log)[..k]);
      TransferExactly(digest, before, call);
      Pipeline.CommitCertifiesEvidence(digest, init, before, r, call);
      Pipeline.ValidatedDrawsOwnStock(init, before, r);
    }
    hide HistorySound, DiskSound, AttemptSound, WellFormed, Transfer, Accepts, Run;
  }

  /** Exactly when a call of the gate moves stock, in whatever state the attempts and the other
      clients have led to: if its context stands and the approver has the permission, quantity and
      version are positive, the key is unused, the order is still as in the evidence and the stock
      still suffices. All else that the service checks is assured. */
  lemma GateCallMovesExactly(digest: Digester, init: Store, events: seq<Event>, k: nat)
    requires Initial(init)
    requires var p := After(digest, Begin(init), events); k < |p.log| && p.log[k].own
    ensures var p := After(digest, Begin(init), events);
            var call, before := p.log[k].call, Run(digest, init, Calls(p.log)[..k]);
            var q := call.command.proposal;
            && p.world.run.result.Some?
            && InventoryKey(q.sku, q.toWarehouse) in before.inventory && q.orderID in before.orders
            && (IsFresh(OutcomeAt(digest, init, Calls(p.log), k)) <==>
                  && !call.cancelled && TRANSFER_PERMISSION in call.command.approval.permissions
                  && q.quantity > 0 && q.expectedOrderVersion > 0
                  && DEFAULT_KEY !in before.transfers
                  && before.orders[q.orderID] == p.world.run.result.value.evidence.order
                  && before.inventory[InventoryKey(q.sku, q.toWarehouse)].available >= q.quantity)
  {
    ReachableIsSound(digest, init, events);
    var p := After(digest, Begin(init), events);
    hide After, Begin;
    var r := p.world.run.result.value;
    assert OwnSound(digest, init, Calls(p.log), k, p.posted.value, r);
    hide HistorySound, LogSound, DiskSound, AttemptSound, OwnSound;
    OwnMovesExactly(digest, init, Calls(p.log), k, p.posted.value, r);
  }

  lemma OwnMovesExactly(digest: Digester, init: Store, calls: seq<Call>, k: nat, posted: Posted, r: InvestigationResult)
    requires Initial(init) && k < |calls| && OwnSound(digest, init, calls, k, posted, r)
    ensures var call, before := calls[k], Run(digest, init, calls[..k]);
            var q := call.command.proposal;
            && InventoryKey(q.sku, q.toWarehouse) in before.inventory && q.orderID in before.orders
            && (IsFresh(OutcomeAt(digest, init, calls, k)) <==>
                  && !call.cancelled && TRANSFER_PERMISSION in call.command.approval.permissions
                  && q.quantity > 0 && q.expectedOrderVersion > 0
                  && DEFAULT_KEY !in before.transfers
                  && before.orders[q.orderID] == r.evidence.order
                  && before.inventory[InventoryKey(q.sku, q.toWarehouse)].available >= q.quantity)
  {
    var call, before := calls[k], Run(digest, init, calls[..k]);
    RunEvolves(digest, init, calls[..k]);
    RunKeepsOriginals(digest, init, calls[..k]);
    TransferExactly(digest, before, call);
    Pipeline.PreparedArguments(digest, init, before, r, call.command.approval);
    Pipeline.ValidatedDrawsOwnStock(init, before, r);
    AcceptedMeans(r);
    assert call.command.approval.actor == "" ==> IsBlank(call.command.approval.actor);
    SameValidity(call.command, GateCall(ApprovalRequest(r.recommendation.summary, call.command.proposal), call.command.approval, false).command);
    hide Run, Transfer, Transferable, IsBlank, ValidCommand, Accepts;
    if Authorised(digest, call) && DEFAULT_KEY !in before.transfers {
      Pipeline.CommitExactly(digest, init, before, r, call);
    }
  }

  lemma SameValidity(c: Command, d: Command)
    requires c.proposal == d.proposal && c.key == d.key
    ensures ValidCommand(c) <==> ValidCommand(d)
  {
  }

  /** However often and with whatever decisions the run is resumed, stock moves at most once for
      the paused proposal, and not at all for its order through any other call if it did. */
  lemma PausedOrderMovesOnce(digest: Digester, init: Store, events: seq<Event>, i: nat, j: nat)
    requires Initial(init)
    requires var p := After(digest, Begin(init), events);
             && i < |p.log| && j < |p.log| && i != j && p.log[i].own
             && IsFresh(OutcomeAt(digest, init, Calls(p.log), i)) && IsFresh(OutcomeAt(digest, init, Calls(p.log), j))
    ensures var p := After(digest, Begin(init), events);
            && !p.log[j].own
            && p.log[j].call.command.proposal.orderID != p.log[i].call.command.proposal.orderID
  {
    var p := After(digest, Begin(init), events);
    var calls := Calls(p.log);
    if i < j { AtMostOneFresh(digest, init, calls, i, j); } else { AtMostOneFresh(digest, init, calls, j, i); }
    ResolutionIsSafe(digest, init, events, i);
    if p.log[j].own { ResolutionIsSafe(digest, init, events, j); }
    hide After, Begin, Transfer, Run, Initial, Accepts;
  }

  /** A reported transfer is in the ledger, for the posted proposal, and shows the order as stored. */
  ghost predicate Transferred(digest: Digester, s: Store, posted: Posted, r: ResolutionResult) {
    && r.transfer.Some?
    && DEFAULT_KEY in s.transfers && s.transfers[DEFAULT_KEY].proposalDigest == digest(posted.request.proposal)
    && var o := r.transfer.value.order;
    s.transfers[DEFAULT_KEY].result == TransferResult(o, DEFAULT_KEY, false) && o.id in s.orders && s.orders[o.id] == o
  }

  lemma ReportedIsTransferred(digest: Digester, init: Store, p: State, r: ResolutionResult)
    requires Initial(init) && HistorySound(digest, init, p.world, p.posted, p.log)
    requires Reported(digest, p.world.store, p.posted, r) && r.status == TRANSFERRED
    ensures p.posted.Some? && Transferred(digest, p.world.store, p.posted.value, r)
  {
    LedgerDeterminesStore(digest, init, Calls(p.log));
    assert REJECTED.status != TRANSFERRED by { assert REJECTED.status[0] == 'r'; }
    hide Pipeline.RunBetween, WellFormed, Evolves, StockFollows, Run, Calls, Initial;
    assert EntrySound(init, DEFAULT_KEY, p.world.store.transfers[DEFAULT_KEY]);
    assert EntryFollows(init, p.world.store, p.world.store.transfers[DEFAULT_KEY].result.order);
  }

  /** In every reachable state the manifest is absent or whole, never torn, and names the posted
      request; and a manifest or a returned result that says "transferred" tells the truth about
      the ledger and about the order as it is stored now. */
  lemma ManifestTellsTruth(digest: Digester, init: Store, events: seq<Event>)
    requires Initial(init)
    ensures var p := After(digest, Begin(init), events);
            && (p.disk.manifest.Some? ==>
                  && p.disk.manifest.value.Whole?
                  && var m := p.disk.manifest.value.run;
                  && p.posted == Some(Posted(m.requestID, m.approval)) && (m.completed <==> m.result.Some?)
                  && (m.result.Some? ==> m.result.value == REJECTED || m.result.value.status == TRANSFERRED)
                  && (m.result.Some? && m.result.value.status == TRANSFERRED ==>
                        Transferred(digest, p.world.store, p.posted.value, m.result.value)))
            && (p.attempt.Returned? && p.attempt.result.status == TRANSFERRED ==>
                  p.posted.Some? && Transferred(digest, p.world.store, p.posted.value, p.attempt.result))
  {
    ReachableIsSound(digest, init, events);
    var p := After(digest, Begin(init), events);
    hide After, Begin, HistorySound, LogSound, Transferred;
    if p.disk.manifest.Some? {
      var m := p.disk.manifest.value.run;
      if m.result.Some? && m.result.value.status == TRANSFERRED { ReportedIsTransferred(digest, init, p, m.result.value); }
    }
    if p.attempt.Returned? && p.attempt.result.status == TRANSFERRED { ReportedIsTransferred(digest, init, p, p.attempt.result); }
  }

  // ---------- rejection ----------

  /** The calls other clients made. */
  function OtherCalls(log: seq<Logged>): seq<Call> {
    if log == [] then []
    else OtherCalls(log[..|log| - 1]) + if log[|log| - 1].own then [] else [log[|log| - 1].call]
  }

  /** The calls of this workflow's gate. */
  function OwnCalls(log: seq<Logged>): seq<Call> {
    if log == [] then []
    else OwnCalls(log[..|log| - 1]) + if log[|log| - 1].own then [log[|log| - 1].call] else []
  }

  ghost predicate NeverApproved(events: seq<Event>) {
    forall e | e in events && e.BeginResume? :: !e.who.approved
  }

  ghost predicate Unapproved(p: State) {
    && OwnCalls(p.log) == []
    && (p.attempt.Watching? ==> !p.attempt.who.approved && forall d | d in p.attempt.loop.sent :: !d.approved)
  }

  lemma LogSnoc(log: seq<Logged>, entry: Logged)
    ensures OwnCalls(log + [entry]) == OwnCalls(log) + if entry.own then [entry.call] else []
    ensures OtherCalls(log + [entry]) == OtherCalls(log) + if entry.own then [] else [entry.call]
  {
    assert (log + [entry])[..|log|] == log;
  }

  lemma NextStaysUnapproved(digest: Digester, p: State, event: Event)
    requires Unapproved(p) && (event.BeginResume? ==> !event.who.approved)
    ensures Unapproved(Next(digest, p, event))
  {
    hide OwnCalls, Transfer, Pipeline.Advance, StartSaves;
    if event.Work? && event.step.Others? { LogSnoc(p.log, Logged(false, event.step.call)); }
    if event.Execute? && p.attempt.Watching? && p.attempt.loop.sent != [] {
      assert p.attempt.loop.sent[0] in p.attempt.loop.sent;
    }
  }

  /** While every attempt so far was a rejection the gate has called nothing: the store is what
      the other clients made of it. */
  lemma RejectionLeavesStore(digest: Digester, init: Store, events: seq<Event>)
    requires Initial(init) && NeverApproved(events)
    ensures var p := After(digest, Begin(init), events);
            Unapproved(p) && p.world.store == Run(digest, init, OtherCalls(p.log))
  {
    StaysUnapproved(digest, init, events);
    ReachableIsSound(digest, init, events);
    var p := After(digest, Begin(init), events);
    hide After, Begin;
    NoOwnCalls(p.log);
  }

  lemma {:induction false} StaysUnapproved(digest: Digester, init: Store, events: seq<Event>)
    requires NeverApproved(events)
    ensures Unapproved(After(digest, Begin(init), events))
  {
    if events != [] {
      StaysUnapproved(digest, init, events[..|events| - 1]);
      hide Unapproved, Next;
      NextStaysUnapproved(digest, After(digest, Begin(init), events[..|events| - 1]), events[|events| - 1]);
    }
  }

  lemma {:induction false} NoOwnCalls(log: seq<Logged>)
    requires OwnCalls(log) == []
    ensures OtherCalls(log) == Calls(log)
  {
    if log != [] {
      var n := |log| - 1;
      NoOwnCalls(log[..n]);
      CallsSnoc(log[..n], log[n]);
      assert log[..n] + [log[n]] == log;
    }
  }

  /** Calls of the gate that were not fresh might as well not have been made. */
  lemma {:induction false} OnlyFreshCallsCount(digest: Digester, init: Store, log: seq<Logged>)
    requires LedgerOfOriginals(init)
    requires forall k | 0 <= k < |log| && log[k].own :: !IsFresh(OutcomeAt(digest, init, Calls(log), k))
    ensures Run(digest, init, Calls(log)) == Run(digest, init, OtherCalls(log))
  {
    if log != [] {
      var n := |log| - 1;
      var before, last := log[..n], log[n];
      assert before + [last] == log;
      CallsSnoc(before, last);
      LogSnoc(before, last);
      forall k | 0 <= k < n && before[k].own ensures !IsFresh(OutcomeAt(digest, init, Calls(before), k)) {
        assert Calls(log)[..k] == Calls(before)[..k];
      }
      OnlyFreshCallsCount(digest, init, before);
      RunSnoc(digest, init, Calls(before), last.call);
      RunSnoc(digest, init, OtherCalls(before), last.call);
      RunKeepsOriginals(digest, init, Calls(before));
      assert Calls(log)[..n] == Calls(before);
      assert Calls(log)[n] == last.call;
      TransferExactly(digest, Run(digest, init, Calls(before)), last.call);
      assert last.own ==> !IsFresh(OutcomeAt(digest, init, Calls(log), n)) && OtherCalls(before) + [] == OtherCalls(before);
      hide Transfer, Calls, Run, OtherCalls;
    } else {
      assert Calls(log) == OtherCalls(log);
    }
  }

  // ---------- absorption ----------

  /** A finished run is on disk, and no attempt is under way. */
  ghost predicate Settled(p: State, m: PausedRun) {
    && p.disk.manifest == Some(Whole(m)) && m.completed && m.result.Some?
    && p.started && !p.attempt.Watching? && !p.attempt.Writing?
  }

  lemma CompletedIsSettled(digest: Digester, init: Store, p: State)
    requires Inv(digest, init, p) && p.disk.manifest.Some? && p.disk.manifest.value.run.completed
    ensures Settled(p, p.disk.manifest.value.run)
  {
    hide HistorySound, LogSound;
  }

  lemma NextStaysSettled(digest: Digester, p: State, m: PausedRun, event: Event)
    requires Settled(p, m)
    ensures var q := Next(digest, p, event);
            && Settled(q, m) && OwnCalls(q.log) == OwnCalls(p.log)
            && (q.attempt == p.attempt || q.attempt == Idle || q.attempt == Returned(Replayed(m.result.value)))
            && (event.BeginResume? ==> q.attempt == Returned(Replayed(m.result.value)))
  {
    if event.Work? && event.step.Others? { LogSnoc(p.log, Logged(false, event.step.call)); }
    hide OwnCalls, Pipeline.Advance, StartSaves;
  }

  lemma {:induction false} StaysSettled(digest: Digester, p: State, m: PausedRun, more: seq<Event>)
    requires Settled(p, m)
    ensures var q := After(digest, p, more);
            && Settled(q, m) && OwnCalls(q.log) == OwnCalls(p.log)
            && (q.attempt == p.attempt || q.attempt == Idle || q.attempt == Returned(Replayed(m.result.value)))
  {
    if more != [] {
      StaysSettled(digest, p, m, more[..|more| - 1]);
      NextStaysSettled(digest, After(digest, p, more[..|more| - 1]), m, more[|more| - 1]);
      hide Next, Settled, OwnCalls;
    }
  }

  /** Once a completed manifest is visible, it has a result; after any further events it is still
      there, the gate has called nothing more, and an attempt returns the saved result, with its
      transfer marked as already applied. */
  lemma SavedResultAbsorbs(digest: Digester, init: Store, events: seq<Event>, more: seq<Event>, who: Operator, opens: bool)
    requires Initial(init)
    requires var p := After(digest, Begin(init), events);
             p.disk.manifest.Some? && p.disk.manifest.value.Whole? && p.disk.manifest.value.run.completed
    ensures var p := After(digest, Begin(init), events);
            var q, m := After(digest, p, more), p.disk.manifest.value.run;
            && m.result.Some?
            && q.disk.manifest == p.disk.manifest && OwnCalls(q.log) == OwnCalls(p.log)
            && (q.attempt == p.attempt || q.attempt == Idle || (q.attempt.Returned? && ReturnedAgain(m.result.value, q.attempt.result)))
            && var again := Next(digest, q, BeginResume(who, opens));
            again == q.(attempt := again.attempt) && again.attempt.Returned?
            && ReturnedAgain(m.result.value, again.attempt.result)
  {
    ReachableIsSound(digest, init, events);
    var p := After(digest, Begin(init), events);
    CompletedIsSettled(digest, init, p);
    hide After, Begin, Initial, OwnCalls, Inv, ReturnedAgain, Next;
    AbsorbsFrom(digest, p, p.disk.manifest.value.run, more, who, opens);
  }

  lemma AbsorbsFrom(digest: Digester, p: State, m: PausedRun, more: seq<Event>, who: Operator, opens: bool)
    requires Settled(p, m)
    ensures var q := After(digest, p, more);
            var again := Next(digest, q, BeginResume(who, opens));
            && q.disk.manifest == p.disk.manifest && OwnCalls(q.log) == OwnCalls(p.log)
            && (q.attempt == p.attempt || q.attempt == Idle || (q.attempt.Returned? && ReturnedAgain(m.result.value, q.attempt.result)))
            && again == q.(attempt := again.attempt) && again.attempt.Returned?
            && ReturnedAgain(m.result.value, again.attempt.result)
  {
    StaysSettled(digest, p, m, more);
    ReplayedIsReturnedAgain(m.result.value, Replayed(m.result.value));
    hide After, OwnCalls, ReturnedAgain, Replayed;
    NextStaysSettled(digest, After(digest, p, more), m, BeginResume(who, opens));
  }

  // ---------- attempts that go through ----------

  lemma AfterSnoc(digest: Digester, p: State, events: seq<Event>, last: Event)
    ensures After(digest, p, events + [last]) == Next(digest, After(digest, p, events), last)
  {
    assert (events + [last])[..|events|] == events;
  }

  lemma {:induction false} AfterSplit(digest: Digester, p: State, events: seq<Event>, more: seq<Event>)
    ensures After(digest, p, events + more) == After(digest, After(digest, p, events), more)
  {
    if more == [] {
      assert events + more == events;
    } else {
      var n := |more| - 1;
      AfterSplit(digest, p, events, more[..n]);
      AfterSnoc(digest, p, events + more[..n], more[n]);
      assert events + more == (events + more[..n]) + [more[n]];
    }
  }

  lemma AfterThree(digest: Digester, p: State, a: Event, b: Event, c: Event)
    ensures After(digest, p, [a, b, c]) == Next(digest, Next(digest, Next(digest, p, a), b), c)
  {
    assert After(digest, p, []) == p;
    hide After, Next;
    AfterSnoc(digest, p, [], a);
    AfterSnoc(digest, p, [a], b);
    AfterSnoc(digest, p, [a, b], c);
    assert [] + [a] == [a] && [a] + [b] == [a, b] && [a, b] + [c] == [a, b, c];
  }

  /** An attempt by `who` up to and including the gate: the saved request is replayed, answered
      and acted on. */
  function Answered(m: PausedRun, who: Operator): seq<Event> {
    [BeginResume(who, true), Deliver(RequestInfo(m.requestID, Some(m.approval), Delivered)), Execute(false)]
  }

  ghost predicate Resumable(p: State, m: PausedRun) {
    && p.disk.manifest == Some(Whole(m)) && !m.completed && p.world.run.prepared == Some(m.approval)
    && !p.attempt.Watching? && !p.attempt.Writing?
  }

  /** The loop after it has answered. */
  function Asked(digest: Digester, m: PausedRun, who: Operator): Resuming {
    Resuming(NO_RESULT, true, false, [DecisionFor(digest, who, m.requestID, m.approval)])
  }

  lemma RequestIsAnswered(digest: Digester, p: State, m: PausedRun, who: Operator)
    requires Resumable(p, m) && MayAnswer(who)
    ensures var replay := Deliver(RequestInfo(m.requestID, Some(m.approval), Delivered));
            Next(digest, Next(digest, p, BeginResume(who, true)), replay) == p.(attempt := Watching(m, who, Asked(digest, m, who), []))
  {
    assert Next(digest, p, BeginResume(who, true)) == p.(attempt := Watching(m, who, RESUMING, []));
    var d := DecisionFor(digest, who, m.requestID, m.approval);
    assert RESUMING.sent + [d] == [d];
    hide IsBlank, DecisionFor, StartSaves, Pipeline.Advance;
  }

  lemma GateIsReached(digest: Digester, p: State, m: PausedRun, who: Operator)
    requires p.attempt == Watching(m, who, Asked(digest, m, who), []) && p.world.run.prepared == Some(m.approval)
    ensures var d := DecisionFor(digest, who, m.requestID, m.approval);
            var (t, r) := Gate(digest, p.world.store, Some(m.approval), d, false);
            var q := Next(digest, p, Execute(false));
            q == p.(world := p.world.(store := t),
                    attempt := p.attempt.(outputs := if r.Ok? then [r.value] else []),
                    log := p.log + if who.approved then [Logged(true, GateCall(m.approval, d, false))] else [])
  {
    var d := DecisionFor(digest, who, m.requestID, m.approval);
    var r := Gate(digest, p.world.store, Some(m.approval), d, false).1;
    assert r.Ok? ==> p.attempt.outputs + [r.value] == [r.value];
    assert p.log + [] == p.log;
    hide Gate, GateCall;
  }

  lemma AnswerReachesGate(digest: Digester, p: State, m: PausedRun, who: Operator)
    requires Resumable(p, m) && MayAnswer(who)
    ensures var d := DecisionFor(digest, who, m.requestID, m.approval);
            var (t, r) := Gate(digest, p.world.store, Some(m.approval), d, false);
            After(digest, p, Answered(m, who)) ==
              p.(world := p.world.(store := t),
                 attempt := Watching(m, who, Asked(digest, m, who), if r.Ok? then [r.value] else []),
                 log := p.log + if who.approved then [Logged(true, GateCall(m.approval, d, false))] else [])
  {
    var replay := Deliver(RequestInfo(m.requestID, Some(m.approval), Delivered));
    AfterThree(digest, p, BeginResume(who, true), replay, Execute(false));
    RequestIsAnswered(digest, p, m, who);
    GateIsReached(digest, p.(attempt := Watching(m, who, Asked(digest, m, who), [])), m, who);
    hide Gate, After, Next, GateCall, DecisionFor, Asked;
  }

  /** The rest of an undisturbed attempt that ends with `r`: the output, the end of the stream and
      the three file operations. */
  function Concluded(r: ResolutionResult): seq<Event> {
    [Deliver(Output(Some(r))), Halt(true), Write(true)] + [Write(true), Write(true)]
  }

  function Finished(m: PausedRun, r: ResolutionResult): PausedRun { m.(completed := true, result := Some(r)) }

  lemma OutputIsWritten(digest: Digester, q: State, m: PausedRun, who: Operator, r: ResolutionResult)
    requires q.attempt == Watching(m, who, Asked(digest, m, who), [r]) && r.status != ""
    ensures Next(digest, Next(digest, q, Deliver(Output(Some(r)))), Halt(true)) == q.(attempt := Writing(Finished(m, r), ToOpen))
  {
    hide DecisionFor, StartSaves, Pipeline.Advance;
  }

  lemma WriteGoesThrough(digest: Digester, q: State, m: PausedRun)
    requires q.attempt == Writing(m, ToOpen) && m.result.Some?
    ensures Next(digest, Next(digest, Next(digest, q, Write(true)), Write(true)), Write(true)) ==
              q.(disk := Disk(Some(Whole(m)), None), attempt := Returned(m.result.value))
  {
  }

  lemma OutputIsSaved(digest: Digester, q: State, m: PausedRun, who: Operator, r: ResolutionResult)
    requires q.attempt == Watching(m, who, Asked(digest, m, who), [r]) && r.status != ""
    ensures After(digest, q, Concluded(r)) == q.(disk := Disk(Some(Whole(Finished(m, r))), None), attempt := Returned(r))
  {
    var all := [Deliver(Output(Some(r))), Halt(true), Write(true)];
    var w := Write(true);
    AfterThree(digest, q, all[0], all[1], all[2]);
    AfterSnoc(digest, q, all, w);
    AfterSnoc(digest, q, all + [w], w);
    assert all + [w] + [w] == Concluded(r);
    OutputIsWritten(digest, q, m, who, r);
    WriteGoesThrough(digest, q.(attempt := Writing(Finished(m, r), ToOpen)), Finished(m, r));
    hide After, Next, Asked;
  }

  /** An undisturbed attempt returns and saves what the gate decided. */
  lemma AttemptGoesThrough(digest: Digester, p: State, m: PausedRun, who: Operator)
    requires Resumable(p, m) && MayAnswer(who)
    requires Gate(digest, p.world.store, Some(m.approval), DecisionFor(digest, who, m.requestID, m.approval), false).1.Ok?
    ensures var d := DecisionFor(digest, who, m.requestID, m.approval);
            var (t, r) := Gate(digest, p.world.store, Some(m.approval), d, false);
            var q := After(digest, p, Answered(m, who) + Concluded(r.value));
            && q.world.store == t && q.attempt == Returned(r.value)
            && q.disk == Disk(Some(Whole(Finished(m, r.value))), None)
            && q.log == p.log + if who.approved then [Logged(true, GateCall(m.approval, d, false))] else []
  {
    var d := DecisionFor(digest, who, m.requestID, m.approval);
    var r := Gate(digest, p.world.store, Some(m.approval), d, false).1.value;
    GateStatus(digest, p.world.store, Some(m.approval), d, false);
    AnswerReachesGate(digest, p, m, who);
    AfterSplit(digest, p, Answered(m, who), Concluded(r));
    OutputIsSaved(digest, After(digest, p, Answered(m, who)), m, who, r);
    hide Gate, After, Answered, Concluded, Asked, GateCall, DecisionFor;
  }

  lemma GateStatus(digest: Digester, s: Store, prepared: Option<ApprovalRequest>, d: Decision, cancelled: bool)
    ensures var r := Gate(digest, s, prepared, d, cancelled).1;
            r.Ok? ==> r.value.status != "" && (!d.approved ==> r.value == REJECTED)
  {
    hide Transfer;
  }

  /** Whether an approval by `who` of the saved request moves stock now. */
  ghost predicate ApprovalMovesStock(s: Store, m: PausedRun, who: Operator) {
    var p := m.approval.proposal;
    && who.approved && !IsBlank(who.actor) && TRANSFER_PERMISSION in who.permissions
    && ValidCommand(Command(p, NO_DECISION, DEFAULT_KEY))
    && DEFAULT_KEY !in s.transfers && Transferable(s, p)
  }

  const NO_DECISION := Decision(false, "", [], "", "")

  lemma GateMovesStock(digest: Digester, s: Store, m: PausedRun, who: Operator)
    requires WellFormed(s) && LedgerOfOriginals(s) && MayAnswer(who)
    ensures var t := Gate(digest, s, Some(m.approval), DecisionFor(digest, who, m.requestID, m.approval), false).0;
            && (t != s <==> ApprovalMovesStock(s, m, who))
            && (t != s ==> DEFAULT_KEY in t.transfers && t.transfers[DEFAULT_KEY].proposalDigest == digest(m.approval.proposal))
  {
    var d := DecisionFor(digest, who, m.requestID, m.approval);
    var call := GateCall(m.approval, d, false);
    GateTransfers(digest, s, Some(m.approval), d, false);
    TransferExactly(digest, s, call);
    if IsFresh(Transfer(digest, s, call).1) { FreshEffect(digest, s, call); }
    assert who.actor == "" ==> IsBlank(who.actor);
    hide Gate, Transfer, Transferable, WellFormed, IsBlank;
  }

  /** An attempt that stops after the gate has run leaves the manifest as it was. */
  lemma StoppedAttempt(digest: Digester, p: State, m: PausedRun, who: Operator)
    requires Resumable(p, m) && MayAnswer(who)
    ensures var d := DecisionFor(digest, who, m.requestID, m.approval);
            var q := After(digest, p, Answered(m, who) + [Stop]);
            && Resumable(q, m)
            && q.world.store == Gate(digest, p.world.store, Some(m.approval), d, false).0
            && q.log == p.log + if who.approved then [Logged(true, GateCall(m.approval, d, false))] else []
  {
    AnswerReachesGate(digest, p, m, who);
    hide Gate, Answered, GateCall, DecisionFor, Asked, IsBlank;
    AfterSnoc(digest, p, Answered(m, who), Stop);
    hide After;
  }

  /** A manifest that says "rejected" does not say that nothing was transferred. An attempt may act
      on an approval and stop before it writes the manifest; a later rejection is then saved and
      returned all the same, and the store is as it was exactly when the approval would have moved
      nothing anyway. */
  lemma RejectionMayFollowTransfer(digest: Digester, p: State, m: PausedRun, approver: Operator, other: Operator)
    requires WellFormed(p.world.store) && LedgerOfOriginals(p.world.store)
    requires Resumable(p, m) && MayAnswer(approver) && !other.approved
    ensures var q := After(digest, p, Answered(m, approver) + [Stop] + (Answered(m, other) + Concluded(REJECTED)));
            && q.attempt == Returned(REJECTED)
            && q.disk.manifest == Some(Whole(Finished(m, REJECTED)))
            && q.world.store == Gate(digest, p.world.store, Some(m.approval),
                                     DecisionFor(digest, approver, m.requestID, m.approval), false).0
            && (q.world.store == p.world.store <==> !ApprovalMovesStock(p.world.store, m, approver))
            && (ApprovalMovesStock(p.world.store, m, approver) ==>
                  DEFAULT_KEY in q.world.store.transfers
                  && q.world.store.transfers[DEFAULT_KEY].proposalDigest == digest(m.approval.proposal))
  {
    var stopped := After(digest, p, Answered(m, approver) + [Stop]);
    StoppedAttempt(digest, p, m, approver);
    AfterSplit(digest, p, Answered(m, approver) + [Stop], Answered(m, other) + Concluded(REJECTED));
    GateMovesStock(digest, p.world.store, m, approver);
    assert Gate(digest, stopped.world.store, Some(m.approval), DecisionFor(digest, other, m.requestID, m.approval), false)
        == (stopped.world.store, Ok(REJECTED));
    hide Resumable, Transferable, DecisionFor, After, Answered, Concluded, WellFormed, Gate, GateCall, ApprovalMovesStock;
    AttemptGoesThrough(digest, stopped, m, other);
  }

  /** Recovery: if any earlier attempt moved the order, or found it moved, before it was stopped,
      then from every reachable state the next undisturbed attempt of an authorised approver moves
      nothing, and saves and returns that same transfer, which shows the order as it is stored. */
  lemma RetryReportsTheTransfer(digest: Digester, init: Store, events: seq<Event>, who: Operator, k: nat)
    requires Initial(init)
    requires var p := After(digest, Begin(init), events);
             && p.disk.manifest.Some? && p.disk.manifest.value.Whole? && !p.disk.manifest.value.run.completed
             && !p.attempt.Watching? && !p.attempt.Writing?
             && k < |p.log| && p.log[k].own && OutcomeAt(digest, init, Calls(p.log), k).Ok?
    requires who.approved && !IsBlank(who.actor) && TRANSFER_PERMISSION in who.permissions
    ensures var p := After(digest, Begin(init), events);
            var m, first := p.disk.manifest.value.run, OutcomeAt(digest, init, Calls(p.log), k).value;
            var r := ResolutionResult(TRANSFERRED, Some(first.(alreadyApplied := true)));
            var q := After(digest, p, Answered(m, who) + Concluded(r));
            && q.world.store == p.world.store && q.attempt == Returned(r)
            && q.disk.manifest == Some(Whole(Finished(m, r)))
            && first.order.id in p.world.store.orders && p.world.store.orders[first.order.id] == first.order
  {
    ReachableIsSound(digest, init, events);
    hide After, Begin, OutcomeAt, IsBlank, Initial;
    RetryFrom(digest, init, After(digest, Begin(init), events), who, k);
  }

  lemma RetryFrom(digest: Digester, init: Store, p: State, who: Operator, k: nat)
    requires Initial(init) && Inv(digest, init, p)
    requires p.disk.manifest.Some? && p.disk.manifest.value.Whole? && !p.disk.manifest.value.run.completed
    requires !p.attempt.Watching? && !p.attempt.Writing?
    requires k < |p.log| && p.log[k].own && OutcomeAt(digest, init, Calls(p.log), k).Ok?
    requires who.approved && !IsBlank(who.actor) && TRANSFER_PERMISSION in who.permissions
    ensures var m, first := p.disk.manifest.value.run, OutcomeAt(digest, init, Calls(p.log), k).value;
            var r := ResolutionResult(TRANSFERRED, Some(first.(alreadyApplied := true)));
            var q := After(digest, p, Answered(m, who) + Concluded(r));
            && q.world.store == p.world.store && q.attempt == Returned(r)
            && q.disk.manifest == Some(Whole(Finished(m, r)))
            && first.order.id in p.world.store.orders && p.world.store.orders[first.order.id] == first.order
  {
    var m := p.disk.manifest.value.run;
    var d := DecisionFor(digest, who, m.requestID, m.approval);
    GateReplays(digest, init, p, m, d, k);
    assert Resumable(p, m);
    hide After, Answered, Concluded, Inv, Gate, IsBlank, OutcomeAt;
    AttemptGoesThrough(digest, p, m, who);
  }

  /** An earlier success of the gate is in the ledger, under the posted proposal. */
  lemma OwnSuccessIsKept(digest: Digester, init: Store, p: State, k: nat)
    requires Initial(init) && Inv(digest, init, p)
    requires k < |p.log| && p.log[k].own && OutcomeAt(digest, init, Calls(p.log), k).Ok?
    ensures var first, s := OutcomeAt(digest, init, Calls(p.log), k).value, p.world.store;
            && p.posted.Some? && ValidCommand(Command(p.posted.value.request.proposal, NO_DECISION, DEFAULT_KEY))
            && DEFAULT_KEY in s.transfers && s.transfers[DEFAULT_KEY].proposalDigest == digest(p.posted.value.request.proposal)
            && s.transfers[DEFAULT_KEY].result == first.(alreadyApplied := false)
            && first.order.id in s.orders && s.orders[first.order.id] == first.order
  {
    var calls := Calls(p.log);
    ResultIsStoredOrder(digest, init, calls, k);
    assert OwnSound(digest, init, calls, k, p.posted.value, p.world.run.result.value);
    assert ValidCommand(calls[k].command);
    hide Run, DiskSound, AttemptSound, IsBlank, Locked, Initial, WellFormed, Evolves, Pipeline.RunBetween;
  }

  lemma GateReplays(digest: Digester, init: Store, p: State, m: PausedRun, d: Decision, k: nat)
    requires Initial(init) && Inv(digest, init, p) && p.disk.manifest == Some(Whole(m))
    requires k < |p.log| && p.log[k].own && OutcomeAt(digest, init, Calls(p.log), k).Ok?
    requires d.approved && d.actor != "" && TRANSFER_PERMISSION in d.permissions && d.proposalDigest == digest(m.approval.proposal)
    ensures var first := OutcomeAt(digest, init, Calls(p.log), k).value;
            && Gate(digest, p.world.store, Some(m.approval), d, false)
                 == (p.world.store, Ok(ResolutionResult(TRANSFERRED, Some(first.(alreadyApplied := true)))))
            && first.order.id in p.world.store.orders && p.world.store.orders[first.order.id] == first.order
  {
    OwnSuccessIsKept(digest, init, p, k);
    assert p.posted.value.request == m.approval;
    hide Run, Inv, IsBlank, Initial, OutcomeAt, Calls, ValidCommand, Transfer;
    var call := GateCall(m.approval, d, false);
    assert Authorised(digest, call) by { SameArguments(m.approval.proposal, call.command); }
    LedgerAnswers(digest, p.world.store, call);
    GateTransfers(digest, p.world.store, Some(m.approval), d, false);
    hide Gate;
  }

  lemma SameArguments(p: Proposal, c: Command)
    requires ValidCommand(Command(p, NO_DECISION, DEFAULT_KEY)) && c.proposal == p && c.key == DEFAULT_KEY
    ensures ValidCommand(c)
  {
  }

  // ---------- the two commands ----------

  /** `Start`, on the stream of the run it starts for the order; `opens` says whether the directory,
      the checkpoint store and the run can be opened. */
  method StartRun(
    dir: StateDir, dirName: string, orderID: string, opens: bool, stream: seq<EventLoops.Event>, closed: bool, ops: FileOps)
    returns (r: Result<PausedRun>)
    modifies dir
    ensures r.Ok? <==>
            && TrimSpace(dirName) != "" && TrimSpace(orderID) != "" && opens
            && closed && (exists m :: Saveable(stream, m))
            && ops.opens && ops.writes && (ops.renames || ((ops.removes || old(dir.manifest) == None) && ops.retries))
    ensures r.Ok? ==> Saveable(stream, r.value) && dir.View() == Disk(Some(Whole(r.value)), None)
    ensures TrimSpace(dirName) == "" || TrimSpace(orderID) == "" || !opens || !closed || (forall m :: !Saveable(stream, m)) ==>
              dir.View() == old(dir.View())
    ensures r.Err? ==> dir.manifest == old(dir.manifest) || dir.manifest == None
  {
    hide Saveable, TrimSpace, IsBlank, StartSaves, WriteSteps;
    BlankIsTrimmedAway(dirName);
    BlankIsTrimmedAway(orderID);
    if IsBlank(dirName) || IsBlank(orderID) { return Err(InvalidArgument); }
    if !opens { return Err(Unclassified); }
    var paused := Start(stream, closed);
    if paused == None { return Err(Unclassified); }
    var ok := dir.WriteManifest(paused.value, ops);
    if !ok { return Err(Unclassified); }
    r := Ok(paused.value);
  }

  /** `Resume`, on the stream of the resumed run: the attempt begins as `Opened` says and ends by
      saving what the loop leaves, or leaves the manifest alone. */
  method ResumeRun(
    digest: Digester, dir: StateDir, who: Operator, opens: bool, stream: seq<EventLoops.Event>, closed: bool, ops: FileOps)
    returns (r: Result<ResolutionResult>)
    modifies dir
    ensures (old(dir.manifest) == None || old(dir.manifest) == Some(Torn)) ==> r.Err? && dir.View() == old(dir.View())
    ensures forall m | old(dir.manifest) == Some(Whole(m)) ::
              if m.completed && m.result.Some? then
                r.Ok? && ReturnedAgain(m.result.value, r.value) && dir.View() == old(dir.View())
              else if (who.approved && TrimSpace(who.actor) == "") || !opens then
                r.Err? && dir.View() == old(dir.View())
              else
                && ((!closed || !exists result :: Resolves(stream, m.requestID, result)) ==> r.Err? && dir.View() == old(dir.View()))
                && (forall result | closed && Resolves(stream, m.requestID, result) ::
                      && (r.Ok? <==> ops.opens && ops.writes && (ops.renames || (ops.removes && ops.retries)))
                      && (r.Ok? ==> r.value == result
                                    && dir.View() == Disk(Some(Whole(m.(completed := true, result := Some(result)))), None))
                      && (r.Err? ==> dir.manifest == old(dir.manifest) || dir.manifest == None))
  {
    hide Resolves, TrimSpace, IsBlank, WatchResume, ResumeSaves, WriteSteps;
    BlankIsTrimmedAway(who.actor);
    var read := dir.ReadManifest();
    if read.Err? { return Err(read.error); }
    var paused := read.value;
    if paused.completed && paused.result != None {
      var result := paused.result.value;
      if result.transfer != None {
        var transfer := result.transfer.value;
        transfer := transfer.(alreadyApplied := true);
        result := result.(transfer := Some(transfer));
      }
      return Ok(result);
    }
    if who.approved && IsBlank(who.actor) { return Err(InvalidArgument); }
    if !opens { return Err(Unclassified); }
    var result, sent := Resume(digest, paused.requestID, who, stream, closed);
    if result == None { return Err(Unclassified); }
    paused := paused.(completed := true);
    paused := paused.(result := result);
    var ok := dir.WriteManifest(paused, ops);
    if !ok { return Err(Unclassified); }
    r := Ok(result.value);
  }
}
