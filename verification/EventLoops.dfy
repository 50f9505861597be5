/** The two loops over a workflow's event stream, for every finite stream of events: `Start`
    watches a run until it halts, `Resume` answers the replayed approval request. */
module EventLoops {
  import opened Text
  import opened Domain
  import opened Approval

  datatype CheckpointInfo = CheckpointInfo(sessionID: string, checkpointID: string)

  const NO_CHECKPOINT := CheckpointInfo("", "")

  datatype PausedRun = PausedRun(
    sessionID: string, checkpoint: CheckpointInfo, requestID: string, approval: ApprovalRequest,
    completed: bool, result: Option<ResolutionResult>)

  const NO_PROPOSAL := Proposal("", "", "", "", 0, 0, 0, 0, "")
  const NOT_PAUSED := PausedRun("", NO_CHECKPOINT, "", ApprovalRequest("", NO_PROPOSAL), false, None)
  const NO_RESULT := ResolutionResult("", None)

  // Events carry what the loops look at. A payload of an unexpected type is `None`.
  datatype Event =
    | RequestInfo(requestID: string, request: Option<ApprovalRequest>, reply: Reply)
    | SuperStepCompleted(pending: bool, checkpoint: Option<CheckpointInfo>)
    | Output(result: Option<ResolutionResult>)
    | Failure(hasError: bool)
    | StreamError
    | OtherEvent

  /** What becomes of a response to this request: built and sent, or not. */
  datatype Reply = Delivered | NotBuilt | NotSent

  // ---------- Start ----------

  datatype Starting = Starting(paused: PausedRun, failed: bool)

  function OnStart(st: Starting, event: Event): Starting {
    match event
    case StreamError => st.(failed := true)
    case RequestInfo(id, request, _) =>
      if request.None? then st.(failed := true)
      else st.(paused := st.paused.(requestID := id, approval := request.value))
    case SuperStepCompleted(pending, checkpoint) =>
      if pending && checkpoint.Some? then
        st.(paused := st.paused.(checkpoint := checkpoint.value, sessionID := checkpoint.value.sessionID))
      else st
    case Failure(hasError) => if hasError then st.(failed := true) else st
    case _ => st
  }

  /** The loop's state after the events; a failure ends it. */
  function WatchStart(events: seq<Event>): Starting {
    if events == [] then Starting(NOT_PAUSED, false)
    else
      var st := WatchStart(events[..|events| - 1]);
      if st.failed then st else OnStart(st, events[|events| - 1])
  }

  /** What `Start` goes on to write, if it goes on. */
  function StartSaves(events: seq<Event>, closed: bool): Option<PausedRun> {
    var st := WatchStart(events);
    if st.failed || !closed then None
    else if st.paused.requestID == "" || st.paused.sessionID == "" || st.paused.checkpoint.checkpointID == "" then None
    else Some(st.paused)
  }

  method Start(events: seq<Event>, closed: bool) returns (saved: Option<PausedRun>)
    ensures saved == StartSaves(events, closed)
    ensures forall m :: saved == Some(m) <==> closed && Saveable(events, m)
  {
    forall m ensures StartSaves(events, closed) == Some(m) <==> closed && Saveable(events, m) { StartSavesExactly(events, closed, m); }
    hide Saveable;
    var paused, err := NOT_PAUSED, false;
    var i := 0;
    while i < |events|
      invariant 0 <= i <= |events|
      invariant !err && WatchStart(events[..i]) == Starting(paused, false)
    {
      StartNext(events, i);
      if events[i].StreamError? {
        err := true;
        StartStays(events, i + 1);
        break;
      }
      match events[i] {
        case RequestInfo(id, request, _) =>
          if request.None? { err := true; }
          else {
            paused := paused.(requestID := id);
            paused := paused.(approval := request.value);
          }
        case SuperStepCompleted(pending, checkpoint) =>
          if pending && checkpoint.Some? {
            paused := paused.(checkpoint := checkpoint.value);
            paused := paused.(sessionID := checkpoint.value.sessionID);
          }
        case Failure(hasError) => err := hasError;
        case _ =>
      }
      if err {
        StartStays(events, i + 1);
        break;
      }
      i := i + 1;
    }
    assert events[..|events|] == events;
    if err || !closed { return None; }
    if paused.requestID == "" || paused.sessionID == "" || paused.checkpoint.checkpointID == "" { return None; }
    saved := Some(paused);
  }

  lemma StartNext(events: seq<Event>, i: nat)
    requires i < |events| && !WatchStart(events[..i]).failed
    ensures WatchStart(events[..i + 1]) == OnStart(WatchStart(events[..i]), events[i])
  {
    assert events[..i + 1][..i] == events[..i];
  }

  lemma {:induction false} StartStays(events: seq<Event>, i: nat)
    requires i <= |events| && WatchStart(events[..i]).failed
    ensures WatchStart(events) == WatchStart(events[..i])
  {
    if i == |events| {
      assert events[..i] == events;
    } else {
      assert events[..|events| - 1][..i] == events[..i];
      StartStays(events[..|events| - 1], i);
    }
  }

  ghost predicate Requested(e: Event, id: string, request: ApprovalRequest) {
    e.RequestInfo? && e.requestID == id && e.request == Some(request)
  }

  ghost predicate PendingAt(e: Event, c: CheckpointInfo) {
    e.SuperStepCompleted? && e.pending && e.checkpoint == Some(c)
  }

  ghost predicate Harmless(e: Event) {
    !e.StreamError? && (e.RequestInfo? ==> e.request.Some?) && (e.Failure? ==> !e.hasError)
  }

  /** What the loop's state remembers came from the stream, and only while nothing went wrong. */
  ghost predicate StartRemembers(st: Starting, events: seq<Event>) {
    && (!st.failed <==> forall e | e in events :: Harmless(e))
    && (st.paused.requestID != "" ==> exists e :: e in events && Requested(e, st.paused.requestID, st.paused.approval))
    && (st.paused.checkpoint == NO_CHECKPOINT || exists e :: e in events && PendingAt(e, st.paused.checkpoint))
    && st.paused.sessionID == st.paused.checkpoint.sessionID && !st.paused.completed && st.paused.result == None
  }

  lemma {:induction false} WatchStartRemembers(events: seq<Event>)
    ensures StartRemembers(WatchStart(events), events)
  {
    if events != [] {
      var n := |events| - 1;
      WatchStartRemembers(events[..n]);
      assert events == events[..n] + [events[n]];
      assert forall e :: e in events <==> e in events[..n] || e == events[n];
      var st, was := WatchStart(events), WatchStart(events[..n]);
      if was.failed {
        var e :| e in events[..n] && !Harmless(e);
        assert e in events;
      } else {
        assert st.failed <==> !Harmless(events[n]);
      }
      if st.paused.requestID != "" {
        if st.paused.requestID == was.paused.requestID && st.paused.approval == was.paused.approval {
          var e :| e in events[..n] && Requested(e, was.paused.requestID, was.paused.approval);
          assert e in events;
        } else {
          assert Requested(events[n], st.paused.requestID, st.paused.approval);
        }
      }
      if st.paused.checkpoint != NO_CHECKPOINT {
        if st.paused.checkpoint == was.paused.checkpoint {
          var e :| e in events[..n] && PendingAt(e, was.paused.checkpoint);
          assert e in events;
        } else {
          assert PendingAt(events[n], st.paused.checkpoint);
        }
      }
    }
  }

  /** `Start` attempts the manifest only after it saw the approval request and a checkpoint with
      that request pending, and only if no event was an error: the manifest names exactly those. */
  lemma StartSavesOnlyDurablePause(events: seq<Event>, closed: bool)
    requires StartSaves(events, closed).Some?
    ensures closed && forall e | e in events :: Harmless(e)
    ensures var m := StartSaves(events, closed).value;
            && !m.completed && m.result == None
            && m.requestID != "" && m.sessionID == m.checkpoint.sessionID && m.sessionID != "" && m.checkpoint.checkpointID != ""
            && (exists e :: e in events && Requested(e, m.requestID, m.approval))
            && (exists e :: e in events && PendingAt(e, m.checkpoint))
  {
    WatchStartRemembers(events);
  }

  /** The request a stream shows last, and the last checkpoint it shows with a request pending. */
  ghost predicate LastRequest(events: seq<Event>, id: string, request: ApprovalRequest) {
    exists i :: 0 <= i < |events| && Requested(events[i], id, request) && forall j | i < j < |events| :: !events[j].RequestInfo?
  }

  predicate Pending(e: Event) { e.SuperStepCompleted? && e.pending && e.checkpoint.Some? }

  ghost predicate LastPending(events: seq<Event>, c: CheckpointInfo) {
    exists i :: 0 <= i < |events| && PendingAt(events[i], c) && forall j | i < j < |events| :: !Pending(events[j])
  }

  ghost predicate NoRequest(events: seq<Event>) { forall e | e in events :: !e.RequestInfo? }

  ghost predicate NonePending(events: seq<Event>) { forall e | e in events :: !Pending(e) }

  lemma LastRequestNext(events: seq<Event>, e: Event, id: string, request: ApprovalRequest)
    ensures LastRequest(events + [e], id, request) <==> if e.RequestInfo? then Requested(e, id, request) else LastRequest(events, id, request)
    ensures NoRequest(events + [e]) <==> NoRequest(events) && !e.RequestInfo?
  {
    var all := events + [e];
    assert all[|events|] == e;
    if LastRequest(events, id, request) {
      var i :| 0 <= i < |events| && Requested(events[i], id, request) && forall j | i < j < |events| :: !events[j].RequestInfo?;
      assert all[i] == events[i];
    }
    if LastRequest(all, id, request) && !e.RequestInfo? {
      var i :| 0 <= i < |all| && Requested(all[i], id, request) && forall j | i < j < |all| :: !all[j].RequestInfo?;
      assert events[i] == all[i] && forall j | 0 <= j < |events| :: events[j] == all[j];
    }
    assert forall x :: x in all <==> x in events || x == e;
  }

  lemma LastPendingNext(events: seq<Event>, e: Event, c: CheckpointInfo)
    ensures LastPending(events + [e], c) <==> if Pending(e) then PendingAt(e, c) else LastPending(events, c)
    ensures NonePending(events + [e]) <==> NonePending(events) && !Pending(e)
  {
    var all := events + [e];
    assert all[|events|] == e;
    if LastPending(events, c) {
      var i :| 0 <= i < |events| && PendingAt(events[i], c) && forall j | i < j < |events| :: !Pending(events[j]);
      assert all[i] == events[i];
    }
    if LastPending(all, c) && !Pending(e) {
      var i :| 0 <= i < |all| && PendingAt(all[i], c) && forall j | i < j < |all| :: !Pending(all[j]);
      assert events[i] == all[i] && forall j | 0 <= j < |events| :: events[j] == all[j];
    }
    assert forall x :: x in all <==> x in events || x == e;
  }

  /** Until something goes wrong the loop holds the last request and the last pending checkpoint. */
  ghost predicate HoldsLast(paused: PausedRun, events: seq<Event>) {
    && (if NoRequest(events) then paused.requestID == "" && paused.approval == NOT_PAUSED.approval
        else LastRequest(events, paused.requestID, paused.approval))
    && (if NonePending(events) then paused.checkpoint == NO_CHECKPOINT else LastPending(events, paused.checkpoint))
    && paused.sessionID == paused.checkpoint.sessionID && !paused.completed && paused.result.None?
  }

  lemma {:induction false} WatchStartHoldsLast(events: seq<Event>)
    ensures !WatchStart(events).failed ==> HoldsLast(WatchStart(events).paused, events)
  {
    if events != [] {
      var before, e := events[..|events| - 1], events[|events| - 1];
      WatchStartHoldsLast(before);
      assert before + [e] == events;
      var st := WatchStart(events);
      if !st.failed {
        LastRequestNext(before, e, st.paused.requestID, st.paused.approval);
        LastPendingNext(before, e, st.paused.checkpoint);
      }
      hide LastRequest, LastPending, NoRequest, NonePending;
    }
  }

  lemma {:induction false} LastIsOne(events: seq<Event>, id: string, request: ApprovalRequest, id': string, request': ApprovalRequest)
    requires LastRequest(events, id, request) && LastRequest(events, id', request')
    ensures id == id' && request == request'
  {
  }

  lemma LastPendingIsOne(events: seq<Event>, c: CheckpointInfo, d: CheckpointInfo)
    requires LastPending(events, c) && LastPending(events, d)
    ensures c == d
  {
    var i :| 0 <= i < |events| && PendingAt(events[i], c) && forall j | i < j < |events| :: !Pending(events[j]);
    var k :| 0 <= k < |events| && PendingAt(events[k], d) && forall j | k < j < |events| :: !Pending(events[j]);
    assert Pending(events[i]) && Pending(events[k]);
  }

  lemma LastMeansSome(events: seq<Event>, id: string, request: ApprovalRequest, c: CheckpointInfo)
    ensures LastRequest(events, id, request) ==> !NoRequest(events)
    ensures LastPending(events, c) ==> !NonePending(events)
  {
    if LastPending(events, c) {
      var i :| 0 <= i < |events| && PendingAt(events[i], c);
      assert events[i] in events && Pending(events[i]);
    }
  }

  /** A manifest `Start` may write for a stream: nothing in the stream is an error, and the manifest
      names the last request and the last checkpoint with a request pending, by real names. */
  ghost predicate Saveable(events: seq<Event>, m: PausedRun) {
    && (forall e | e in events :: Harmless(e))
    && LastRequest(events, m.requestID, m.approval) && LastPending(events, m.checkpoint)
    && m.sessionID == m.checkpoint.sessionID && !m.completed && m.result.None?
    && m.requestID != "" && m.sessionID != "" && m.checkpoint.checkpointID != ""
  }

  /** `Start` saves a manifest exactly if the run closes well and the manifest is that of its stream. */
  lemma StartSavesExactly(events: seq<Event>, closed: bool, m: PausedRun)
    ensures StartSaves(events, closed) == Some(m) <==> closed && Saveable(events, m)
  {
    var st := WatchStart(events);
    WatchStartRemembers(events);
    WatchStartHoldsLast(events);
    LastMeansSome(events, m.requestID, m.approval, m.checkpoint);
    hide WatchStart, LastRequest, LastPending, NoRequest, NonePending, Harmless;
    if closed && Saveable(events, m) {
      LastIsOne(events, m.requestID, m.approval, st.paused.requestID, st.paused.approval);
      LastPendingIsOne(events, m.checkpoint, st.paused.checkpoint);
    }
  }

  // ---------- Resume ----------

  /** What the operator brought to this attempt. */
  datatype Operator = Operator(approved: bool, actor: string, permissions: seq<string>)

  /** The loop's variables, and every decision it handed to `SendResponse`. */
  datatype Resuming = Resuming(result: ResolutionResult, responded: bool, failed: bool, sent: seq<Decision>)

  const RESUMING := Resuming(NO_RESULT, false, false, [])

  function DecisionFor(digest: Proposal -> string, who: Operator, requestID: string, request: ApprovalRequest): Decision {
    Decision(who.approved, who.actor, who.permissions, digest(request.proposal), requestID)
  }

  function OnResume(digest: Proposal -> string, wanted: string, who: Operator, st: Resuming, event: Event): Resuming {
    match event
    case StreamError => st.(failed := true)
    case RequestInfo(id, request, reply) =>
      if st.responded || id != wanted || request.None? || reply.NotBuilt? then st.(failed := true)
      else
        var sent := st.(sent := st.sent + [DecisionFor(digest, who, id, request.value)]);
        if reply.NotSent? then sent.(failed := true) else sent.(responded := true)
    case Output(result) => if result.None? then st.(failed := true) else st.(result := result.value)
    case Failure(hasError) => if hasError then st.(failed := true) else st
    case _ => st
  }

  function WatchResume(digest: Proposal -> string, wanted: string, who: Operator, events: seq<Event>): Resuming {
    if events == [] then RESUMING
    else
      var st := WatchResume(digest, wanted, who, events[..|events| - 1]);
      if st.failed then st else OnResume(digest, wanted, who, st, events[|events| - 1])
  }

  /** The result `Resume` goes on to save, if it goes on. */
  function ResumeSaves(st: Resuming, closed: bool): Option<ResolutionResult> {
    if st.failed || !closed || !st.responded || st.result.status == "" then None else Some(st.result)
  }

  method Resume(digest: Proposal -> string, wanted: string, who: Operator, events: seq<Event>, closed: bool)
    returns (saved: Option<ResolutionResult>, sent: seq<Decision>)
    ensures saved == ResumeSaves(WatchResume(digest, wanted, who, events), closed)
    ensures sent == WatchResume(digest, wanted, who, events).sent
    ensures forall r :: saved == Some(r) <==> closed && Resolves(events, wanted, r)
  {
    forall r ensures ResumeSaves(WatchResume(digest, wanted, who, events), closed) == Some(r) <==> closed && Resolves(events, wanted, r) {
      ResumeSavesExactly(digest, wanted, who, events, closed, r);
    }
    hide Resolves;
    var result, responded, err := NO_RESULT, false, false;
    sent := [];
    var i := 0;
    while i < |events|
      invariant 0 <= i <= |events|
      invariant !err && WatchResume(digest, wanted, who, events[..i]) == Resuming(result, responded, false, sent)
    {
      ResumeNext(digest, wanted, who, events, i);
      match events[i] {
        case StreamError => err := true;
        case RequestInfo(id, request, reply) =>
          if responded { err := true; }
          else if id != wanted { err := true; }
          else if request.None? { err := true; }
          else {
            var proposalDigest := digest(request.value.proposal);
            if reply.NotBuilt? { err := true; }
            else {
              sent := sent + [Decision(who.approved, who.actor, who.permissions, proposalDigest, id)];
              if reply.NotSent? { err := true; } else { responded := true; }
            }
          }
        case Output(typed) =>
          if typed.None? { err := true; } else { result := typed.value; }
        case Failure(hasError) => err := hasError;
        case _ =>
      }
      if err {
        ResumeStays(digest, wanted, who, events, i + 1);
        break;
      }
      i := i + 1;
    }
    assert events[..|events|] == events;
    if err || !closed { return None, sent; }
    if !responded || result.status == "" { return None, sent; }
    saved := Some(result);
  }

  lemma ResumeNext(digest: Proposal -> string, wanted: string, who: Operator, events: seq<Event>, i: nat)
    requires i < |events| && !WatchResume(digest, wanted, who, events[..i]).failed
    ensures WatchResume(digest, wanted, who, events[..i + 1])
            == OnResume(digest, wanted, who, WatchResume(digest, wanted, who, events[..i]), events[i])
  {
    assert events[..i + 1][..i] == events[..i];
  }

  lemma {:induction false} ResumeStays(digest: Proposal -> string, wanted: string, who: Operator, events: seq<Event>, i: nat)
    requires i <= |events| && WatchResume(digest, wanted, who, events[..i]).failed
    ensures WatchResume(digest, wanted, who, events) == WatchResume(digest, wanted, who, events[..i])
  {
    if i == |events| {
      assert events[..i] == events;
    } else {
      assert events[..|events| - 1][..i] == events[..i];
      ResumeStays(digest, wanted, who, events[..|events| - 1], i);
    }
  }

  /** At most one decision leaves the loop; it is the operator's, addressed to the saved request
      and bound to the digest of a request that was replayed under that ID. */
  ghost predicate SentOnce(digest: Proposal -> string, wanted: string, who: Operator, st: Resuming) {
    && |st.sent| <= 1
    && (st.responded ==> |st.sent| == 1) && (st.sent != [] ==> st.responded || st.failed)
    && (forall d | d in st.sent ::
          d.requestID == wanted && d.approved == who.approved && d.actor == who.actor && d.permissions == who.permissions)
  }

  ghost predicate BoundToReplay(digest: Proposal -> string, d: Decision, events: seq<Event>) {
    exists e :: e in events && e.RequestInfo? && e.requestID == d.requestID && e.request.Some?
                && d.proposalDigest == digest(e.request.value.proposal)
  }

  lemma OnResumeSendsOnce(digest: Proposal -> string, wanted: string, who: Operator, st: Resuming, event: Event)
    requires SentOnce(digest, wanted, who, st) && !st.failed
    ensures SentOnce(digest, wanted, who, OnResume(digest, wanted, who, st, event))
  {
  }

  /** Over every finite event stream the loop sends at most one response, and only to the saved
      request; a result is saved only after exactly one response, a clean end of the stream and
      an output with a status. */
  lemma {:induction false} ResumeProtocol(digest: Proposal -> string, wanted: string, who: Operator, events: seq<Event>)
    ensures var st := WatchResume(digest, wanted, who, events);
            && SentOnce(digest, wanted, who, st)
            && (forall d | d in st.sent :: BoundToReplay(digest, d, events))
            && (st.result.status != "" ==> Output(Some(st.result)) in events)
            && (forall closed :: ResumeSaves(st, closed).Some? ==>
                  closed && |st.sent| == 1 && st.responded && (forall e | e in events :: Harmless(e))
                  && Output(Some(st.result)) in events)
  {
    if events != [] {
      var n := |events| - 1;
      ResumeProtocol(digest, wanted, who, events[..n]);
      assert events == events[..n] + [events[n]];
      assert forall e :: e in events <==> e in events[..n] || e == events[n];
      var st, was := WatchResume(digest, wanted, who, events), WatchResume(digest, wanted, who, events[..n]);
      if !was.failed { OnResumeSendsOnce(digest, wanted, who, was, events[n]); }
      forall d | d in st.sent ensures BoundToReplay(digest, d, events) {
        if d in was.sent {
          var e :| e in events[..n] && e.RequestInfo? && e.requestID == d.requestID && e.request.Some?
                   && d.proposalDigest == digest(e.request.value.proposal);
          assert e in events;
        }
      }
      HarmlessSoFar(digest, wanted, who, events);
    }
  }

  lemma {:induction false} HarmlessSoFar(digest: Proposal -> string, wanted: string, who: Operator, events: seq<Event>)
    ensures !WatchResume(digest, wanted, who, events).failed ==> forall e | e in events :: Harmless(e)
  {
    if events != [] {
      var n := |events| - 1;
      HarmlessSoFar(digest, wanted, who, events[..n]);
      assert events == events[..n] + [events[n]];
    }
  }

  // ---------- exactly when Resume goes on ----------

  /** The event ends the loop with an error: an error of the stream or of an executor, an output of
      another type, or a request the loop cannot answer, because it is another one than the saved one,
      is of another type, cannot be answered, or has been answered. All other events pass. */
  ghost predicate Stops(events: seq<Event>, wanted: string, i: nat)
    requires i < |events|
  {
    match events[i]
    case StreamError => true
    case Failure(hasError) => hasError
    case Output(result) => result.None?
    case RequestInfo(id, request, reply) =>
      id != wanted || request.None? || reply != Delivered || exists j :: 0 <= j < i && events[j].RequestInfo?
    case SuperStepCompleted(_, _) => false
    case OtherEvent => false
  }

  ghost predicate StopsNowhere(events: seq<Event>, wanted: string) {
    forall i | 0 <= i < |events| :: !Stops(events, wanted, i)
  }

  ghost predicate LastOutput(events: seq<Event>, r: ResolutionResult) {
    exists i :: 0 <= i < |events| && events[i] == Output(Some(r)) && forall j | i < j < |events| :: !events[j].Output?
  }

  ghost predicate NoOutput(events: seq<Event>) { forall e | e in events :: !e.Output? }

  lemma StopsNext(events: seq<Event>, e: Event, wanted: string)
    ensures StopsNowhere(events + [e], wanted) <==> StopsNowhere(events, wanted) && !Stops(events + [e], wanted, |events|)
  {
    var all := events + [e];
    forall i | 0 <= i < |events| ensures Stops(all, wanted, i) <==> Stops(events, wanted, i) {
      assert forall j | 0 <= j <= i :: all[j] == events[j];
    }
    hide Stops;
  }

  lemma LastOutputNext(events: seq<Event>, e: Event, r: ResolutionResult)
    ensures LastOutput(events + [e], r) <==> if e.Output? then e.result == Some(r) else LastOutput(events, r)
    ensures NoOutput(events + [e]) <==> NoOutput(events) && !e.Output?
  {
    var all := events + [e];
    assert all[|events|] == e;
    if LastOutput(events, r) {
      var i :| 0 <= i < |events| && events[i] == Output(Some(r)) && forall j | i < j < |events| :: !events[j].Output?;
      assert all[i] == events[i];
    }
    if LastOutput(all, r) && !e.Output? {
      var i :| 0 <= i < |all| && all[i] == Output(Some(r)) && forall j | i < j < |all| :: !all[j].Output?;
      assert events[i] == all[i] && forall j | 0 <= j < |events| :: events[j] == all[j];
    }
    assert forall x :: x in all <==> x in events || x == e;
  }

  /** The loop's variables in terms of the stream. */
  ghost predicate ResumeHolds(st: Resuming, events: seq<Event>, wanted: string) {
    && (!st.failed <==> StopsNowhere(events, wanted))
    && (!st.failed ==>
          && (st.responded <==> !NoRequest(events))
          && (if NoOutput(events) then st.result == NO_RESULT else LastOutput(events, st.result)))
  }

  lemma RequestBefore(events: seq<Event>, e: Event, wanted: string)
    requires e.RequestInfo?
    ensures Stops(events + [e], wanted, |events|) <==>
              e.requestID != wanted || e.request.None? || e.reply != Delivered || !NoRequest(events)
  {
    var all := events + [e];
    assert all[|events|] == e;
    if !NoRequest(events) {
      var x :| x in events && x.RequestInfo?;
      var j :| 0 <= j < |events| && events[j] == x;
      assert all[j].RequestInfo?;
    }
    assert forall j | 0 <= j < |events| :: all[j] == events[j] && events[j] in events;
  }

  lemma {:induction false} WatchResumeHolds(digest: Proposal -> string, wanted: string, who: Operator, events: seq<Event>)
    ensures ResumeHolds(WatchResume(digest, wanted, who, events), events, wanted)
  {
    if events != [] {
      var before, e := events[..|events| - 1], events[|events| - 1];
      WatchResumeHolds(digest, wanted, who, before);
      assert before + [e] == events && events[|before|] == e;
      var st := WatchResume(digest, wanted, who, events);
      StopsNext(before, e, wanted);
      if e.RequestInfo? { RequestBefore(before, e, wanted); }
      LastRequestNext(before, e, "", NOT_PAUSED.approval);
      LastOutputNext(before, e, st.result);
      hide StopsNowhere, LastOutput, NoOutput, NoRequest, LastRequest;
    }
  }

  /** A stream the loop gets through with a result: nothing stops it, it shows the saved request, and
      the last output has a status. */
  ghost predicate Resolves(events: seq<Event>, wanted: string, r: ResolutionResult) {
    StopsNowhere(events, wanted) && !NoRequest(events) && LastOutput(events, r) && r.status != ""
  }

  lemma LastOutputIsOne(events: seq<Event>, r: ResolutionResult, q: ResolutionResult)
    requires LastOutput(events, r)
    ensures !NoOutput(events) && (LastOutput(events, q) ==> r == q)
  {
    var i :| 0 <= i < |events| && events[i] == Output(Some(r)) && forall j | i < j < |events| :: !events[j].Output?;
    assert events[i] in events;
  }

  /** `Resume` goes on to save a result exactly if the run closes well and its stream resolves to it. */
  lemma ResumeSavesExactly(
    digest: Proposal -> string, wanted: string, who: Operator, events: seq<Event>, closed: bool, r: ResolutionResult)
    ensures ResumeSaves(WatchResume(digest, wanted, who, events), closed) == Some(r) <==> closed && Resolves(events, wanted, r)
  {
    var st := WatchResume(digest, wanted, who, events);
    WatchResumeHolds(digest, wanted, who, events);
    hide WatchResume, StopsNowhere, LastOutput, NoOutput, NoRequest;
    if LastOutput(events, r) { LastOutputIsOne(events, r, st.result); }
  }
}
