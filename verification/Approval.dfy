/** The approval gate: the prepared request, and the executor that acts on the decision. */
module Approval {
  import opened Text
  import opened Domain
  import opened TransferStore
  import opened Validation

  datatype ApprovalRequest = ApprovalRequest(summary: string, proposal: Proposal)

  datatype ResolutionResult = ResolutionResult(status: string, transfer: Option<TransferResult>)

  const REJECTED := ResolutionResult("rejected", None)
  const TRANSFERRED := "transferred"

  /** `PrepareApproval`: only a validated transfer is stored and passed on. */
  function Prepare(r: InvestigationResult): Result<ApprovalRequest> {
    if Accepts(r) then Ok(ApprovalRequest(r.recommendation.summary, r.recommendation.proposal.value))
    else Err(Conflict)
  }

  /** The call the gate makes for a prepared request: one key for every run of the workflow. */
  function GateCall(prepared: ApprovalRequest, decision: Decision, cancelled: bool): Call {
    Call(cancelled, Command(prepared.proposal, decision, DEFAULT_KEY))
  }

  /** Whether the gate calls the service at all. */
  predicate GateCalls(digest: Digester, prepared: Option<ApprovalRequest>, decision: Decision) {
    decision.approved && prepared.Some? && decision.proposalDigest == digest(prepared.value.proposal)
  }

  /** The `TransferFulfilment` executor, on the prepared request read back from workflow state. */
  function Gate(digest: Digester, s: Store, prepared: Option<ApprovalRequest>, decision: Decision, cancelled: bool)
    : (Store, Result<ResolutionResult>)
  {
    if !decision.approved then (s, Ok(REJECTED))
    else if prepared.None? then (s, Err(Unclassified))
    else if decision.proposalDigest != digest(prepared.value.proposal) then (s, Err(ApprovalNeeded))
    else
      var (t, r) := Transfer(digest, s, GateCall(prepared.value, decision, cancelled));
      match r
      case Err(e) => (t, Err(e))
      case Ok(result) => (t, Ok(ResolutionResult(TRANSFERRED, Some(result))))
  }

  /** The gate moves stock only for the prepared proposal, only on an approved and authorised
      decision bound to its digest, and reports a transfer only if the ledger holds it. */
  lemma GateMeans(digest: Digester, s: Store, prepared: Option<ApprovalRequest>, decision: Decision, cancelled: bool)
    requires forall k | k in s.transfers :: !s.transfers[k].result.alreadyApplied
    ensures var (t, r) := Gate(digest, s, prepared, decision, cancelled);
            && (!GateCalls(digest, prepared, decision) ==>
                  t == s && (r == Ok(REJECTED) <==> !decision.approved) && (decision.approved ==> r.Err?))
            && (t != s ==> prepared.Some? && Authorised(digest, GateCall(prepared.value, decision, cancelled)))
            && (r.Ok? && r.value.status == TRANSFERRED ==>
                  && prepared.Some? && r.value.transfer.Some? && DEFAULT_KEY in t.transfers
                  && t.transfers[DEFAULT_KEY].proposalDigest == digest(prepared.value.proposal)
                  && t.transfers[DEFAULT_KEY].result == r.value.transfer.value.(alreadyApplied := false))
            && (r.Ok? ==> r.value == REJECTED || r.value.status == TRANSFERRED)
  {
    if GateCalls(digest, prepared, decision) {
      TransferExactly(digest, s, GateCall(prepared.value, decision, cancelled));
    }
    assert REJECTED.status != TRANSFERRED by { assert REJECTED.status[0] == 'r'; }
  }

  /** A call of the gate is one transfer, and its outcome the gate's. */
  lemma GateTransfers(digest: Digester, s: Store, prepared: Option<ApprovalRequest>, decision: Decision, cancelled: bool)
    ensures var (t, r) := Gate(digest, s, prepared, decision, cancelled);
            if GateCalls(digest, prepared, decision) then
              var (u, q) := Transfer(digest, s, GateCall(prepared.value, decision, cancelled));
              t == u && r == if q.Ok? then Ok(ResolutionResult(TRANSFERRED, Some(q.value))) else Err(q.error)
            else t == s
  {
    hide Transfer, GateCall;
  }

  /** Every answer of the gate, and the one call it may make. */
  lemma GateAnswers(digest: Digester, s: Store, prepared: Option<ApprovalRequest>, decision: Decision, cancelled: bool)
    ensures var (t, r) := Gate(digest, s, prepared, decision, cancelled);
            if !decision.approved then t == s && r.Ok? && r.value.status == "rejected" && r.value.transfer.None?
            else if prepared.None? then t == s && r.Err?
            else if decision.proposalDigest != digest(prepared.value.proposal) then t == s && r == Err(ApprovalNeeded)
            else
              var call := Call(cancelled, Command(prepared.value.proposal, decision, "transfer-58372-mel-syd"));
              var (u, q) := Transfer(digest, s, call);
              && t == u
              && (q.Err? ==> r == Err(q.error))
              && (q.Ok? ==> r.Ok? && r.value.status == "transferred" && r.value.transfer == Some(q.value))
  {
    hide Transfer;
  }

  /** With its context cancelled an approved gate moves nothing and says so. */
  lemma CancelledGateMovesNothing(digest: Digester, s: Store, prepared: Option<ApprovalRequest>, decision: Decision)
    ensures var (t, r) := Gate(digest, s, prepared, decision, true);
            && t == s
            && (decision.approved && prepared.Some? && decision.proposalDigest == digest(prepared.value.proposal) ==> r == Err(Cancelled))
  {
  }
}
