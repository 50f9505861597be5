# Order resolution: a verified model

This project models the order service in four layers and proves what each promises.

**The store** (`TransferStore`, `Orderdata`, `Runs`, `Ledger`, `Batches`, `Locking`). Five maps and
one guarded, idempotent mutation. The mutation is given twice: as the function `Transfer` on store
values, and as the class `MemoryServices`, whose method writes the maps one after the other in the
order of the source and is proved to refine the function. Theorems are about every well-formed store
and every list of calls; `Locking` then takes the mutation apart into lock steps and single map
writes of any number of threads under any schedule and shows that this is still a sequential run.

**The investigation** (`EvidenceAssembly`, `FanIn`, `Validation`, `Pipeline`, `Traces`, `Concurrent`). The load, the four checks, the
fan-in, an unconstrained reasoner and the validator. In `Pipeline` every read sees the store at its
own moment and other clients transfer in between, so evidence is no snapshot; the theorems say what
it is worth when the transfer is finally committed. `Concurrent` makes the reads of a run, and the
gate of the protocol, threads of the locked services and shows that under every schedule they amount
to such steps.

**The approval protocol** (`Approval`, `EventLoops`, `Manifest`, `Resolution`, `Undisturbed`). The
prepared request, the gate, the event loops of `Start` and `Resume` as loops over every finite
stream, the manifest replacement file operation by file operation, and one state machine that
puts all of it together: other clients, the workflow, any number of resume attempts with any
decisions, and a stop between any two steps. `Undisturbed` follows runs that nothing disturbs, with
their reads in any order, to both ends: the reported transfer, and the rejection that hides it.

**Digests** (`ProposalJson`). The JSON text a digest is taken of, with a reader that inverts it.

Conventions. `Digester` is the digest function and is arbitrary; where a result depends on it, equal
digests of different proposals appear in the statement. `Int` is the 64-bit `int`, and the version
counter wraps. Error values are the classes that `errors.Is` distinguishes. An `init` store is any
well-formed one (`WellFormed`): records agree with the keys they are stored under, stock is not
negative, and an order waits exactly when its fulfilment is blocked, at the same warehouse.
`Initial` adds an empty ledger.

Five findings about the code:

- A manifest that says `rejected` does not mean that nothing was transferred. From every store whose
  records support the transfer the protocol reaches a state with a rejected manifest beside the moved
  order (`RejectedBesideMovedOrder`): an approved attempt is stopped between the gate and the manifest,
  and a rejection follows. `RejectionMayFollowTransfer` says from any resumable state what such attempts
  leave, and when.
- The repository's README says that the mutation checks that the idempotency key was not used for
  another command. The code compares proposal digests only (`UsedKeyAnswers`): the same proposal under
  the same key from another approver is another command, and is answered with the first one's transfer
  (`AnotherApproverIsAnswered`). The model follows the code.
- Assembly alone does not make evidence independent of the order in which parts arrive. It does exactly
  if the parts are not one usable part of each kind, or all carry the same order, or two of them name
  orders that differ in ID or version (`ArrivalOrderIrrelevantExactly`). Otherwise the first named order
  wins, or the last one where none has an ID (`BlankOrderIsOverwritten`), or a named part before an
  unnamed one fails. No run gets there: the aggregator is the only caller, and all four parts carry the
  one order that was loaded (`FanInOfRun`).
- The validator checks neither that quantity and expected version are positive nor the fulfilment's
  warehouse. The latter follows from the records (`CommitExactly`); the former is the only thing
  that can still fail an approved, undisturbed run (`ValidatedPipelineComplete`): a supported order
  whose quantity or version is not positive is prepared, and then refused as invalid
  (`NotPositiveIsPreparedAndRefused`).
- Inventory keys join SKU and warehouse with a NUL and do not escape it. A direct caller's proposal
  draws on its own stock in every store exactly if neither holds a NUL (`DrawsOwnStockExactly`); a
  validated proposal of the workflow always does (`ValidatedDrawsOwnStock`).

In the table, rows that begin with "helper" state a fact about one function that the results use.

## Model

| member | source | states |
|---|---|---|
| Text.BlankIsTrimmedAway | internal/orderdomain/domain.go:191-196 | an identifier is refused exactly if nothing is left of it when the spaces of `unicode.IsSpace` are trimmed from both ends |
| Text.BeforeExactly | internal/investigation/workflow.go:355-360 | the comparison the evidence is sorted by: one text comes before another exactly if it is its beginning or is smaller at the first place where they differ |
| TransferStore.InventoryKeyText | internal/orderdata/memory.go:253-255 | a key is the SKU, a NUL and the warehouse |
| TransferStore.InventoryKeyInjective | internal/orderdata/memory.go:253-255 | keys of NUL-free SKUs are equal only for equal SKU and warehouse, so the string-keyed map is a map of pairs |
| TransferStore.InventoryKeyUnambiguous | internal/orderdata/memory.go:253-255 | a key names one pair among all pairs of strings exactly when neither part holds a NUL |
| TransferStore.InventoryKeyWarehouse | internal/orderdata/memory.go:253-255 | under one SKU, whatever it holds, a key determines the warehouse |
| TransferStore.ReadersAnswer | internal/orderdata/memory.go:66-132 | the getters of orders, payments and fulfilments return a record iff it is the stored record with that ID, and "not found" iff there is none |
| TransferStore.ReadersRefuse | internal/orderdata/memory.go:66-132 | helper: a getter refuses for a cancelled context, then for a blank question, and else only for want of a record |
| TransferStore.StockReaderAnswers | internal/orderdata/memory.go:99-116 | the stock getter answers with the record of the SKU and warehouse asked for in every store exactly if neither holds a NUL |
| TransferStore.GuardExactly | internal/orderdata/memory.go:167-193 | the checks under the lock pass exactly when order, items, payment, fulfilment and target stock all support the proposal, and report "not found" exactly for a missing order |
| TransferStore.TransferExactly | internal/orderdata/memory.go:134-214 | a call moves stock iff it is authorised, its key unused and the records support it; it is replayed iff the key holds its digest, with the recorded order; otherwise it errs and changes nothing |
| TransferStore.RefusalsExactly | internal/orderdata/memory.go:134-193 | helper: each error class is returned exactly when its own check fails and none before it; "invalid" exactly if the call stands and one of five texts is blank, the warehouses coincide, or quantity or version is not positive |
| TransferStore.FreshEffect | internal/orderdata/memory.go:195-213 | a fresh success changes one order, its fulfilment, one stock record and the ledger as stated, and no other record |
| TransferStore.FreshMovesAway | internal/orderdata/memory.go:195-213 | a fresh success takes the order to another warehouse than its own and leaves the stock of its SKU there alone |
| TransferStore.DrawsOwnStockExactly | internal/orderdata/memory.go:189-196 | a transferable proposal draws on the stock of its own SKU and target warehouse in every initial store exactly if neither holds a NUL |
| TransferStore.TransferKeepsWellFormed | internal/orderdata/memory.go:134-214 | key agreement, non-negative stock and the order/fulfilment coupling survive every call |
| TransferStore.DemoStoreIsInitial | internal/orderdata/memory.go:25-64 | the demonstration store is well formed with an empty ledger, and its transfer to Sydney is possible |
| Orderdata.MemoryServices.NewDeterministicServices | internal/orderdata/memory.go:25-64 | the constructed services hold the demonstration store |
| Orderdata.MemoryServices.GetOrder | internal/orderdata/memory.go:66-81 | the answer is that of the specification, in its order of checks, and nothing is written |
| Orderdata.MemoryServices.GetPayment | internal/orderdata/memory.go:83-97 | the same for payments |
| Orderdata.MemoryServices.GetInventory | internal/orderdata/memory.go:99-116 | the same for stock of a SKU at a warehouse |
| Orderdata.MemoryServices.GetFulfilment | internal/orderdata/memory.go:118-132 | the same for fulfilments |
| Orderdata.MemoryServices.ValidateTransferCommand | internal/orderdata/memory.go:216-242 | a command is refused as invalid exactly if key, order ID, a warehouse or SKU is blank when trimmed, the warehouses coincide, or quantity or version is not positive |
| Orderdata.MemoryServices.TransferFulfilment | internal/orderdata/memory.go:134-214 | the writes to the map fields, in the order of the source, leave exactly the state and result of the specification `Transfer` |
| Runs.RunEvolves | internal/orderdata/memory.go:134-214 | over every run payments stay, stock never rises, an order and a fulfilment move at most once and then to another warehouse, and ledger entries are never lost or changed |
| Runs.RefusalPermanent | internal/orderdata/memory.go:138-193 | a call refused for any reason but cancellation is refused after any further calls, unless one of those carried a different proposal with the same digest |
| Runs.RepeatDelivery | internal/orderdata/memory.go:158-165 | delivering a call again after anything else changes nothing, and returns the first success marked as already applied |
| Runs.ExactlyOnceEffect | internal/orderdata/memory.go:134-214 | every run ends in the same store as the run of its first deliveries alone |
| Runs.FirstDeliveriesExactly | internal/orderdata/memory.go:158-165 | where the first deliveries keep each delivered command once, at its first delivery, and nothing else |
| Runs.RepeatAnywhere | internal/orderdata/memory.go:134-214 | a repeat may be inserted anywhere after a first delivery without changing the final store |
| Runs.AtMostOneFresh | internal/orderdata/memory.go:158-213 | two fresh successes of one run have different keys and different orders |
| Runs.UsedKeyAnswers | internal/orderdata/memory.go:158-165 | once a call has moved stock, any authorised call with its key moves nothing and is answered with that transfer exactly if the proposals share a digest, else with a conflict |
| Runs.AnotherApproverIsAnswered | internal/orderdata/memory.go:158-165 | so the same proposal and key from another approver, another command, is answered as if it were the first |
| Runs.VersionIdentifiesOrder | internal/orderdata/memory.go:171-200 | at any two points of a run equal versions of an order mean equal records, and the version changes at most once, by one step |
| Ledger.LedgerDeterminesStore | internal/orderdata/memory.go:158-213 | in every reachable state orders and fulfilments are the initial ones overlaid with the ledger's results, payments are unchanged, and each stock is the initial one less the ledger's quantities for it |
| Ledger.SameLedgerSameStore | internal/orderdata/memory.go:158-213 | two runs from one store that end with equal ledgers end in equal stores |
| Ledger.ResultIsStoredOrder | internal/orderdata/memory.go:158-165 | any successful result, fresh or replayed, is in the ledger and equals the order as stored at any later time |
| Ledger.FreshTransfersBounded | internal/orderdata/memory.go:189-196 | total stock falls by exactly the units of fresh transfers and stays non-negative; their number is the number of orders that stopped waiting, the growth of the ledger, and at most the initial stock |
| Batches.BatchSucceedsExactly | internal/orderdata/memory.go:167-213 | calls with distinct keys and orders, each acceptable alone, all succeed iff their summed demand fits the stock of each target |
| Batches.BatchLeaves | internal/orderdata/memory.go:195-213 | what a batch of fresh transfers leaves in each map |
| Batches.BatchOrderIrrelevant | internal/orderdata/memory.go:167-213 | every permutation of a fitting batch succeeds throughout and ends in the same store |
| Locking.ScheduleKeepsInv | internal/orderdata/memory.go:134-214 | under every schedule there is one writer or only readers, the maps are those of the sequential run except for the part of its transfer a writer has written, and answers match that run |
| Locking.EveryRunIsSequential | internal/orderdata/memory.go:138-213 | under every schedule each finished call answered as in the one-at-a-time run in the order the lock was taken, or would answer so in any state; no getter sees a half-applied transfer |
| Locking.RealTimeOrderKept | internal/orderdata/memory.go:155-156 | a call that finished before another began comes before it in that sequential run |
| Locking.OneFreshAmongThreads | internal/orderdata/memory.go:155-213 | of concurrent calls with one key, or for one order, at most one is a fresh success |
| Locking.NoDeadlock | internal/orderdata/memory.go:155-156 | under every schedule whoever holds the lock can go on, and while nobody does every unfinished call can, so no choice of whom to let in first gets stuck |
| Locking.StepsRunOut | internal/orderdata/memory.go:134-214 | at most eight steps of each call change anything in any schedule: the steps left fall with every one that does |
| Locking.EveryCallCanFinish | internal/orderdata/memory.go:134-214 | from wherever a schedule has led, all calls can be brought to their end |
| EvidenceAssembly.ChecksAnswer | internal/investigation/workflow.go:213-263 | helper: a check answers with a part of its kind that carries the loaded order and what was read, or with the error of the read; shipping status is asked for exactly if the order has a shipment |
| EvidenceAssembly.StockTurn | internal/investigation/workflow.go:227-238 | helper: a warehouse is asked about unless a record so far answers for it, and an error ends the check |
| EvidenceAssembly.CheckInventory | internal/investigation/workflow.go:220-240 | the loop makes the two stock reads at their own moments, skips a warehouse already answered for, and fails with the first failing read |
| EvidenceAssembly.AssembleEvidence | internal/investigation/workflow.go:317-362 | the loop over parts with its early returns computes `Assemble` |
| EvidenceAssembly.EvidenceAggregator.DeliveryFinished | internal/investigation/workflow.go:306-313 | assembles what was delivered since the last time, and forgets it |
| EvidenceAssembly.AssembleExactly | internal/investigation/workflow.go:317-362 | assembly succeeds iff each kind occurs once, payloads are present and the named orders and versions agree; the evidence then holds what the parts hold, inventory ascending by warehouse and estimates by origin |
| FanIn.ArrivalOrderIrrelevantExactly | internal/investigation/workflow.go:306-362 | every permutation of parts assembles alike iff they are not one usable part of each kind, or all carry equal orders, or two name orders that differ in ID or version |
| FanIn.FanInDeterministic | internal/investigation/workflow.go:317-362 | such parts assemble alike also for every order of the records within them, where records are unique by warehouse and estimates by origin |
| FanIn.BlankOrderIsOverwritten | internal/investigation/workflow.go:325-329 | where no part has an order ID and two orders differ, the part that arrives last decides the evidence's order |
| Validation.ValidateRecommendation | internal/investigation/workflow.go:364-411 | the two searches and all comparisons, as loops and tests in the source's order, decide `Accepts` |
| Validation.AcceptsExactly | internal/investigation/workflow.go:364-411 | what is accepted, field by field on any evidence: a transfer of the waiting order's one item, paid for and blocked, to another warehouse, with the first stock record and the first estimate there bearing it out |
| Validation.ValidatorExact | internal/investigation/workflow.go:364-411 | on evidence with one estimate and, for the order's SKU, one record for each warehouse, a recommendation is accepted iff it proposes the transfer computed from the evidence, and there is one iff the evidence supports moving the order to where the estimate starts |
| Validation.AcceptedByTarget | internal/investigation/workflow.go:364-411 | helper: on any evidence two accepted proposals with one target are equal |
| Validation.AcceptedMeans | internal/investigation/workflow.go:364-411 | what acceptance guarantees about statuses, items, warehouses, version and target stock |
| Validation.ReasonLetsThrough | internal/investigation/workflow.go:265-286 | helper: whatever the reasoner returns, a result passes iff it is a no_action without proposal or a validated transfer; else its error or a conflict is reported |
| Pipeline.RunFailsExactly | internal/investigation/workflow.go:205-295 | helper: a run fails with a read or a stage exactly if it does not get what that asks for |
| Pipeline.FailureEndsRun | internal/investigation/workflow.go:205-295 | after a failure nothing the run holds changes any more, and no request is ever prepared |
| Pipeline.ReadsLieBetween | internal/investigation/workflow.go:205-263 | whatever other clients do between the reads, everything the run has read lies between the first store and the present one |
| Traces.EvidenceWasRead | internal/investigation/workflow.go:205-263 | under any interference each record of the evidence was in the store at the moment of one of the run's own reads of its kind |
| Traces.PreparedWasSupported | internal/investigation/workflow.go:375-411 | under any interference a request is prepared only if the order was waiting when loaded, its payment captured, its fulfilment blocked and its target stocked when each of those was read |
| Pipeline.CommitCertifiesEvidence | internal/orderdata/memory.go:167-193 | when a validated proposal commits fresh, the evidence's order, payment and fulfilment equal the store just before the commit, and stock has only fallen since it was read, not below what is taken |
| Pipeline.ValidatedDrawsOwnStock | internal/investigation/workflow.go:380-398 | the stock under the key of a validated proposal of a run is that of its own SKU and target, whatever characters they hold |
| Pipeline.CommitExactly | internal/orderdata/memory.go:167-193 | an authorised commit of a validated proposal under an unused key is fresh iff the order is still the one in the evidence and the target still has the stock; the fulfilment check follows |
| Pipeline.OneProposalPerRun | internal/investigation/workflow.go:205-286 | on the evidence of every run there is one estimate, whatever the reasoner returns is accepted iff it proposes the transfer computed from the evidence, and there is one iff the evidence supports it |
| Pipeline.FanInOfRun | internal/investigation/workflow.go:227-313 | the parts of a run assemble alike in whatever order its checks finish |
| Pipeline.PreparedArguments | internal/orderdata/memory.go:216-242 | of the argument checks only those of quantity and version can still fail for a prepared proposal |
| Pipeline.ValidatedPipelineComplete | internal/investigation/workflow.go:364-411 | with nobody interfering, an approved and authorised run under an unused key transfers iff quantity and version are positive |
| Concurrent.LockedRunIsStepwise | internal/investigation/workflow.go:205-263 | under every schedule of the threads that make a run's reads and other clients' transfers, also when a check has failed and its siblings still read, what the run makes of its threads' answers is the run whose reads and transfers are single steps in lock order, with the threads' store while nobody writes |
| Concurrent.LockedReadsLieBetween | internal/investigation/workflow.go:205-263 | so everything such a run has read lies between the first store and the threads' present one |
| Concurrent.LockedProtocolIsStepwise | internal/resolution/resume.go:109-237 | the same for the whole protocol with the gate's calls as threads: under every schedule it is the protocol on single steps, so what is proved of every reachable state holds of it |
| Concurrent.LockedManifestTellsTruth | internal/resolution/resume.go:228-236 | for instance its manifest, when it says "transferred", tells the truth about the threads' store |
| Approval.GateMeans | internal/investigation/workflow.go:123-151 | helper: the gate changes the store only for the prepared proposal on an authorised approval of its digest, rejects without a call, and says "transferred" only of what the ledger holds |
| Approval.GateAnswers | internal/investigation/workflow.go:123-151 | helper: each answer of the gate, and the one call it may make, with its context, the prepared proposal, the decision and the one key |
| Approval.CancelledGateMovesNothing | internal/investigation/workflow.go:142-149 | with its context cancelled an approved gate moves nothing and says so |
| EventLoops.Start | internal/resolution/resume.go:62-102 | the loop over the event stream saves a manifest exactly if the run closes well and the stream has no error, and it is that of the last request and the last pending checkpoint |
| EventLoops.StartSavesOnlyDurablePause | internal/resolution/resume.go:62-105 | a manifest is attempted only after an approval request and a pending checkpoint were seen, no error occurred and the run closed, and it names exactly those |
| EventLoops.StartSavesExactly | internal/resolution/resume.go:62-105 | the same of the fold over the stream, both ways |
| EventLoops.Resume | internal/resolution/resume.go:160-230 | the loop saves a result exactly if the run closes well and the stream resolves to it, and sends what the fold over the stream says |
| EventLoops.ResumeProtocol | internal/resolution/resume.go:160-230 | over every stream at most one response is sent, only to the saved request and bound to the replayed proposal; a result is saved only after exactly one response, no error and an output with a status |
| EventLoops.ResumeSavesExactly | internal/resolution/resume.go:160-230 | a stream resolves exactly if no event of it is an error, an output of another type or a request that is another than the saved one, cannot be answered or comes after an answer, one request is answered, and the last output has a status; all other events pass |
| Manifest.StopAnywhere | internal/resolution/resume.go:263-281 | stopping anywhere in a replacement leaves the old manifest, the new one or, only after a failed rename and a remove, none; never a part of one |
| Manifest.ReplacementEnds | internal/resolution/resume.go:263-281 | which of the five file operations have to work for the manifest to be replaced, and what is left of it if they do not |
| Manifest.StateDir.ReadManifest | internal/resolution/resume.go:251-261 | a whole manifest is read back, a missing or torn one is an error |
| Manifest.StateDir.WriteManifest | internal/resolution/resume.go:263-281 | succeeds exactly for the stated outcomes of the five file operations, then has replaced the manifest, and otherwise kept or removed it |
| Resolution.StopLosesAttempt | internal/resolution/resume.go:121-139 | stopping at any point loses the attempt and nothing else, and the next one begins from what is on disk |
| Resolution.StartEndsOnce | internal/resolution/resume.go:96-106 | helper: `Start` ends once, and goes on to write exactly the manifest that its stream makes |
| Resolution.HaltEndsWatching | internal/resolution/resume.go:224-236 | helper: an attempt whose stream ends goes on to write the manifest it read, completed with the last output, exactly if all went well, and is over otherwise |
| Resolution.ReachableIsSound | internal/resolution/resume.go:109-237 | an invariant of all reachable protocol states: the store is the run of the logged calls, and calls, manifests, outputs and decisions agree with the posted request and the ledger |
| Resolution.ResolutionIsSafe | internal/investigation/workflow.go:104-151 | each call of the gate is for the one proposal validated on this run's evidence and prepared before the request, on an approval of its digest that answers that request; if it moved stock it was authorised, drew on the stock of its own SKU and target and found the store as the evidence has it |
| Resolution.GateCallMovesExactly | internal/orderdata/memory.go:134-193 | in any reachable state a call of the gate moves stock iff its context stands, the approver has the permission, quantity and version are positive, the key is unused, the order is as in the evidence and the stock suffices |
| Resolution.PausedOrderMovesOnce | internal/resolution/resume.go:121-236 | over any attempts, decisions and stops the paused proposal moves stock at most once, and nobody else moves its order if it did |
| Resolution.ManifestTellsTruth | internal/resolution/resume.go:228-236 | the manifest is never torn and names the posted request; a manifest or result that says "transferred" is matched by the ledger entry and the order as stored now |
| Resolution.RejectionLeavesStore | internal/investigation/workflow.go:124-126 | as long as every attempt rejects, the workflow makes no call and the store is what other clients made it |
| Resolution.OnlyFreshCallsCount | internal/investigation/workflow.go:142-149 | calls of the gate that were not fresh might as well not have been made |
| Resolution.RejectionMayFollowTransfer | internal/resolution/resume.go:224-236 | after an attempt stopped between the gate and the manifest, a rejection is saved all the same, over the store the gate left, which is unchanged iff the approval would have moved nothing |
| Resolution.SavedResultAbsorbs | internal/resolution/resume.go:125-133 | once a completed manifest is visible in a reachable state it has a result and stays, the gate calls nothing more and every attempt returns the saved status and, if there is one, the saved transfer with its order and key, marked as already applied |
| Resolution.AttemptGoesThrough | internal/resolution/resume.go:109-237 | an undisturbed attempt saves and returns what the gate decided |
| Resolution.RetryReportsTheTransfer | internal/resolution/resume.go:109-237 | if an attempt transferred and was stopped, the next undisturbed authorised approval moves nothing and saves and returns that transfer |
| Resolution.StartRun | internal/resolution/resume.go:32-107 | the command succeeds exactly when its arguments are not blank, all opens, the stream is one to save and the file operations work, with the manifest as returned, and touches nothing before the write |
| Resolution.ResumeRun | internal/resolution/resume.go:109-237 | the command returns a completed result again with its transfer marked, refuses a nameless approver or a checkpoint that does not open, gives up without touching the manifest if the stream does not resolve, and else replaces it exactly if the file operations work |
| Undisturbed.UndisturbedRunPrepares | internal/investigation/workflow.go:104-116 | from every store whose records support it, a run with its reads in any order prepares the transfer to Sydney that the reasoner recommends |
| Undisturbed.PreparedShowsSupport | internal/investigation/workflow.go:205-286 | whatever the order and number of its events, a run that nothing disturbs prepares nothing but the transfer to Sydney of an order the store supports |
| Undisturbed.UndisturbedRunPreparesExactly | internal/investigation/workflow.go:104-286 | so a run with its reads in any order prepares a request iff store and shipping service support the transfer and the reasoner recommends it |
| Undisturbed.NotPositiveIsPreparedAndRefused | internal/orderdata/memory.go:235-240 | for a supported order the request is prepared, and the approved gate answers that it is invalid exactly if quantity or version is not positive |
| Undisturbed.ResolutionCompletes | internal/resolution/resume.go:32-237 | from every such store, with the reads in any order, the protocol reaches a saved and returned result that reports the transfer, with order, fulfilment and Sydney stock moved and nothing else changed |
| Undisturbed.RejectedBesideMovedOrder | internal/resolution/resume.go:224-236 | and it reaches a saved and returned rejection with exactly the same records moved |
| Undisturbed.DemoStoreIsSupported | internal/orderdata/memory.go:25-64 | the demonstration store is such a store |
| Undisturbed.DemoEvidence | internal/investigation/workflow.go:355-360 | whose evidence lists Melbourne's stock of 0, then Sydney's of 14 |
| ProposalJson.ObjectReads | internal/orderdomain/domain.go:130-134 | the object text of string and integer members, with the escapes of section 7 of RFC 8259 and those of Go's HTML-safe writer, reads back to the members |
| ProposalJson.MembersInOrder | internal/orderdomain/domain.go:111-121 | a proposal's text reads back to nine members under the struct's names in the order of its fields |
| ProposalJson.ObjectLayout | internal/orderdomain/domain.go:130-134 | helper: braces, quotes, colons and commas with no blanks between them |
| ProposalJson.ShortEscapes | internal/orderdomain/domain.go:130-134 | helper: the seven two-character escapes |
| ProposalJson.LongEscapes | internal/orderdomain/domain.go:130-134 | helper: the other control characters, the HTML characters and the line separators are written by number |
| ProposalJson.EscapedIsSafe | internal/orderdomain/domain.go:130-134 | no string writes any of those as itself |
| ProposalJson.MarshalInjective | internal/orderdomain/domain.go:111-134 | two proposals have one JSON text exactly when they are equal |
| ProposalJson.DigestBindsProposal | internal/orderdomain/domain.go:130-137 | two proposals share a digest exactly when they are equal or exhibit a collision of the hash |

## Left out

- Foundry, agent sessions, prompts and streaming: the reasoner is an arbitrary reply.
- The MCP client and server: shipping status and delivery estimate are arbitrary answers.
- Workflow framework internals: assumed are barrier delivery, that a resumed run sees the state it was checkpointed with, and that a run's stream shows in `Start` only requests the run posted and in `Resume` only outputs the gate gave. The replayed request itself is arbitrary, and the gate may run more than once on one response.
- Several `Start`s in one state directory, and two attempts at the same time: the source's checkpoint store is for one process.
- A new process in the source begins with a new in-memory store; statements over several attempts are about attempts that share one service instance.
- Checkpoint files and reading their index: whether the saved checkpoint can be opened is an input of `BeginResume` and `ResumeRun`.
- JSON decoding of the manifest: a file is whole or torn. Durability of the file system beyond atomic rename.
- SHA-256 itself: results name the collisions they depend on.
- Strings that are not valid UTF-8: strings are sequences of Unicode scalar values. Go's encoder replaces invalid bytes, so proposals that differ only there share a digest.
- Sharing of item slices between a result and the store: items are values.
- `slices.SortFunc` is not stable: evidence is determined only where records with one key are equal, as `FanInDeterministic` requires.
- Error texts, the command line, telemetry and the read-only tool wrappers.
- Orderdata.MemoryServices.TransferFulfilment: runs under the lock as one call; interleavings are the subject of `Locking`.
- Undisturbed.ResolutionCompletes: shows that every order of the reads leads on; it is no claim that the framework always schedules one.
- Locking.NoDeadlock: readers may pass a waiting writer, which a `sync.RWMutex` forbids; the model has more schedules than the source, and what can go on when the lock is free can do so under either rule.
