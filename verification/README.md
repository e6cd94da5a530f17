# Agent coordination layer: model and proofs

This project models the agent coordination layer of the board server (`backend/src/agent`) in
Dafny and proves what its protocols and transformations guarantee. `dafny verify dfyconfig.toml`
checks everything.

## What is modelled

**Leases and dispatch.** `ContextLease` and `DispatchReceipt` hold the rows and the effect of
every guarded write; `CoordinationStore` holds the same operations as methods that update the
tables field by field. `DispatchProtocol` is a state machine over those writes: any number of
workers, reconcilers and lease callers interleave, every read before a guarded write is its own
step with a possibly stale result, a `$transaction` or a single `updateMany` is one atomic step,
and a call or a worker may crash between any two of its steps. No clock is assumed: each step
carries its own `now`. A foreign start has an arbitrary outcome. Generations come from a random
source that never repeats. `DispatchInvariants` and `DispatchInduction` prove the invariant,
`DispatchSafety` the theorems about whole runs; `LeaseHistory` and `WorkerHistory` trace every
stored row and every worker back to the request or action it comes from. `RowChanges` spells out,
column by column, what each write promises; contracts are stated with it and nothing is computed
from it.

**Instruction closures and approvals.** `InstructionClosure` is the depth-first visit with the
growing whole-frame worklist, proved to compute a least fixpoint; `InstructionApprovals` is the
fingerprint protocol on top of it, and `ContentHashes` the hashes it compares: SHA-256 is taken to be
injective on the normal form of the canonical JSON, and the JSON of a closure is proved to identify it.
`ElementMeaning` says by fields when two elements mean the same.

**Context membership and provenance.** `ContextIndex` holds the two frame-ancestry walkers and
the cached resolver, `ContextFrames` the geometry of Context frames over reals and the registry,
`ElementProvenance` the revisioned guest-provenance rows with two-phase confirmation,
`GuestGate` the write gate and what registration does to provenance.

**Confined reads.** `BoardRevisions` is the content-keyed insert of immutable revisions,
`BoardTools` the read tools with their two filters, `BoardAnswers` what each of them answers in
terms of the stored board, `BoardConfinement` the proof that answers depend on nothing the mount
may not read.

**Thread log, batches, canonical JSON.** `ThreadLog` appends and pages, `ThreadCorrections`
resolves corrections, `ApplyOps` interprets operation batches, `CanonicalJson` is the normal form
that revision and approval hashes are computed from.

`Wrappers`, `Sequences`, `Ordering` and `Scene` are shared vocabulary.

## An exception to effect finality

A receipt whose effect was committed while its execution was still queued can later be overwritten:
`failDispatchBeforeRuntimeAck` guards on the execution status only and sets the effect to failed
(`backend/src/agent/dispatchReceipt.ts:441-453`), although evidence and the committed event stay.
The model follows the code. `ResolvedEffectIsFinalUnless` gives the exact condition under which a
resolved effect changes, and `CommittedEffectIsOverwritten` a run that reaches such a state.

## Model

| member | source | states |
|---|---|---|
| DispatchSafety.UnknownOutcomeNeverCommits | backend/src/agent/dispatchReceipt.ts:502-571 | in every interleaving, a receipt that becomes `outcome_unknown` uncommitted is never committed afterwards and never logs a commit |
| DispatchSafety.OneCommitPerGeneration | backend/src/agent/dispatchReceipt.ts:620-703 | over any run, a lease generation pays for at most one committed board effect |
| DispatchSafety.OneReceiptPerGeneration | backend/src/agent/dispatchReceipt.ts:202-320 | in every reachable state at most one receipt binds a generation, since a run has one receipt and a generation one run |
| DispatchSafety.CommitHoldsEveryGeneration | backend/src/agent/dispatchReceipt.ts:631-700 | every commit of a run is asked for in the receipt's own drawing and run with the capability token of that run's mount, while the effect is pending, the execution not `outcome_unknown`, and each bound generation unreleased, unexpired, in its row and held by the receipt's run; the step records exactly the evidence and releases exactly those rows |
| DispatchSafety.CommitIsOpenExactly | backend/src/agent/dispatchReceipt.ts:631-666 | in every reachable state a commit goes through exactly when it carries the token of the run's mount and the receipt's drawing and run, finds the effect pending and the outcome not unknown, and every bound row live and held by the run |
| DispatchSafety.ReceiptEvolves | backend/src/agent/dispatchReceipt.ts:389-703 | what any single action may do to a receipt: bindings and log only grow or stay, terminal status stays, commits need live generations, a resolved effect moves only in the one named case |
| DispatchSafety.GenerationKeepsItsFacts | backend/src/agent/contextLease.ts:186-241 | a generation's Context, run, initiator and horizon never change between any two points of a run, and a release stays a release |
| DispatchSafety.ReplacedGenerationNeverReturns | backend/src/agent/contextLease.ts:186-241 | a generation that has left its row appears in no row ever again |
| DispatchSafety.ReplacementIsAuthorized | backend/src/agent/contextLease.ts:235-241 | a row changes generation only if it was not live at the caller's clock and then becomes the acquiring call's grant, or by a transfer of a live lease that its recorded initiator or an override asked for, and then names the recipient's holder, run and initiator under the old horizon; only a re-grant moves the horizon or clears a release |
| DispatchSafety.ChainKeepsItsHorizon | backend/src/agent/contextLease.ts:328-414 | across any renewals and transfers with stale reads, the horizon stays that of the acquire and the expiry never exceeds it |
| LeaseHistory.LeaseWritesAnswerRequests | backend/src/agent/contextLease.ts:168-435 | over any run with stale reads, every grant, re-grant, renewal and transfer answers one earlier request: it happens exactly when the stored row allows it, writes every field as that request asked (holder, run, initiator, drawn generation, capped expiry), and no other row |
| LeaseHistory.OtherwiseRowsAreOnlyReleased | backend/src/agent/dispatchReceipt.ts:502-703 | apart from those writes a row changes only by being released, by its authorized holder or in the action that leaves a receipt bound to its generation unknown or resolved |
| LeaseHistory.ReceiptWritesExactly | backend/src/agent/dispatchReceipt.ts:172-703 | every receipt after every action, field by field; a new one passed every admission check |
| WorkerHistory.EveryStageHasACause | backend/src/agent/dispatchWorker.ts:80-196 | every worker of a run stands where one earlier action of its own put it, for the reason that action found, and has stood there since |
| WorkerHistory.AcknowledgedIsWhatStarted | backend/src/agent/dispatchWorker.ts:80-196 | a worker acknowledges only the status its own foreign start reported, after claiming that outbox, finding its payload and passing the authority check, in this order |
| DispatchSafety.StartedAtMostOnce | backend/src/agent/dispatchWorker.ts:80-196 | with any number of workers and crashes, at most one foreign start per dispatch; execution is queued exactly when the outbox is pending or sending, exactly when the payload is present |
| DispatchSafety.TerminalIsForever | backend/src/agent/dispatchReceipt.ts:128-170 | no run leaves a terminal execution status or moves its timestamp |
| DispatchSafety.ReachableReceipt | backend/src/agent/dispatchReceipt.ts:134-170 | in every reachable state: terminal timestamp exactly for terminal statuses, resolved or unknown receipts have every generation dead, evidence exactly after a commit, events numbered 1..n with n the counter |
| DispatchSafety.ResolvedEffectIsFinalUnless | backend/src/agent/dispatchReceipt.ts:439-453 | a resolved effect changes in a step exactly when a worker gives up on a receipt that is still queued and already committed |
| DispatchSafety.CommittedEffectIsOverwritten | backend/src/agent/dispatchReceipt.ts:441-453 | such a step is reachable: a run ends with effect failed while evidence and the committed event stand |
| DispatchSafety.ReconcileMeetsDeadlines | backend/src/agent/dispatchReceipt.ts:520-612 | after a reconcile at t neither half of the receipt is late at t, a second reconcile at t changes nothing, and other receipts are untouched |
| DispatchSafety.SilenceIsTimedExactly | backend/src/agent/dispatchReceipt.ts:520-571 | over any run in which nobody reports on a dispatch, its open execution stays exactly until some reconciliation reads a clock at or past its deadline, and is unknown from then on |
| DispatchSafety.SilenceBecomesUnknown | backend/src/agent/dispatchReceipt.ts:209-210 | over any silent run from admission the dispatch is queued with its payload until a reconciliation 30 seconds later, and unknown without it from then on |
| DispatchSafety.ReportLastsOneWindow | backend/src/agent/dispatchReceipt.ts:389-500 | a report puts the receipt into the status the runtime word stands for; over any silent run from it a final status stands, and any other lasts exactly until a reconciliation 60 seconds later |
| DispatchInduction.RunInvariant | backend/src/agent/dispatchReceipt.ts:172-703 | every state of every run satisfies the joint invariant of leases, calls, receipts and workers |
| DispatchInduction.RunIsLater | backend/src/agent/contextLease.ts:186-241 | over any stretch of a run, written generations keep their facts and dead ones stay dead |
| DispatchInduction.AcceptBindsTargets | backend/src/agent/dispatchReceipt.ts:202-270 | an admitted receipt binds exactly its targets, once each, to the generation then live in each row and held by its run |
| DispatchInvariants.ReleaseAllKills | backend/src/agent/dispatchReceipt.ts:502-514 | releasing a receipt's bindings leaves every bound generation dead |
| RowChanges.AdmissionIsRefusedExactly | backend/src/agent/dispatchReceipt.ts:172-305 | each admission refusal in its own case, over the rows of threads, mounts, Contexts and leases |
| CoordinationStore.Store.AcquireContextLease | backend/src/agent/contextLease.ts:168-287 | without interference: granted exactly when the horizon is ahead and the row is absent, released or expired; every field of the granted row, no other row moves, and a refusal changes nothing and names its cause |
| CoordinationStore.Store.RenewContextLease | backend/src/agent/contextLease.ts:298-350 | succeeds exactly for the unreleased, unexpired row of that generation and run and its initiator (or an override); moves only the expiry, to the earlier of now plus the time asked and the horizon; each error in its case |
| CoordinationStore.Store.TransferContextLease | backend/src/agent/contextLease.ts:365-435 | succeeds exactly for a live row of that generation and an authorized caller; the new row has the drawn generation, the recipient's holder, run and initiator, the capped expiry and the old horizon, and no other row moves; each error in its case |
| CoordinationStore.Store.ReleaseContextLease | backend/src/agent/contextLease.ts:446-478 | releases exactly the named unreleased generation of an authorized caller, and writes only that column |
| CoordinationStore.Store.AppendTransition | backend/src/agent/dispatchReceipt.ts:134-170 | applies exactly from the expected statuses, bumps the counter and inserts the event under it |
| CoordinationStore.Store.ReleaseReceiptLeases | backend/src/agent/dispatchReceipt.ts:502-514 | the loop releases exactly the unreleased rows whose current generation is bound, and writes only that column |
| CoordinationStore.Store.AcceptDispatchReceipt | backend/src/agent/dispatchReceipt.ts:172-322 | admitted exactly when the threads, the mount and the Contexts agree with the request, each target has one binding, holds a live row of the run with that generation, and neither dispatch nor run is taken; each error in its case, and every field of the new receipt |
| CoordinationStore.Store.ClaimDispatchOutbox | backend/src/agent/dispatchReceipt.ts:376-387 | claims exactly a pending outbox, and writes only its state and the time of the attempt |
| CoordinationStore.Store.AcknowledgeDispatchRuntime | backend/src/agent/dispatchReceipt.ts:389-430 | applies exactly to a queued receipt; the status the runtime word stands for, both timestamps, the 60 second deadline, the delivered outbox without payload, and every bound row released exactly if the run is lost |
| CoordinationStore.Store.FailDispatchBeforeRuntimeAck | backend/src/agent/dispatchReceipt.ts:432-463 | applies exactly to a queued receipt, whatever its effect, which becomes failed; every bound row is released |
| CoordinationStore.Store.ObserveDispatchRuntime | backend/src/agent/dispatchReceipt.ts:465-500 | applies exactly to an active receipt; the status the runtime word stands for, the new 60 second deadline, and every bound row released exactly if the run is lost |
| CoordinationStore.Store.ReconcileDispatchReceipt | backend/src/agent/dispatchReceipt.ts:520-612 | the execution half and the effect half each exactly when late, field by field, and every bound row released exactly if either was |
| CoordinationStore.Store.CommitDispatchBoardEffect | backend/src/agent/dispatchReceipt.ts:620-703 | commits exactly a pending effect of that drawing and run, under the capability token of the run's mount, whose every bound row is live and held by the run; every field of the new receipt, exactly the bound rows released; each error in its case, and any refusal changes nothing |
| InstructionClosure.CompileInstructionClosure | backend/src/agent/instructionClosure.ts:144-261 | succeeds exactly when the instruction is live and in the Context and every relation leaving the least fixpoint has a known kind, two live ends in the Context and, for a whole frame, a frame at its end; the content is that fixpoint; each refusal in its case, naming a fault some such relation has |
| InstructionClosure.Reach | backend/src/agent/instructionClosure.ts:157-230 | the visit and the growing worklist terminate with the least fixpoint |
| InstructionClosure.Visit | backend/src/agent/instructionClosure.ts:166-172 | the recursive visit marks the id and everything its relations lead to, inside any closed bound |
| InstructionClosure.LeastIsLeast | backend/src/agent/instructionClosure.ts:166-230 | the fixpoint is closed under typed edges and whole-frame members, and inside every closed set |
| InstructionClosure.SoundStaysInside | backend/src/agent/instructionClosure.ts:109-136 | a sound closure never leaves its Context |
| InstructionClosure.ProjectionsAgree | backend/src/agent/instructionClosure.ts:65-102 | two elements project alike exactly when they have the same id, the same type (empty or missing read as unknown), the same authored words (rendered ones where there are none) up to line endings, and the same non-empty link |
| InstructionClosure.ContentEqualsExactly | backend/src/agent/instructionClosure.ts:234-259 | two compilable inputs have the same content exactly when they have the same fixpoint, elements on it that mean the same (id, type, words up to line endings, link), and the same relations leaving it |
| InstructionClosure.ContentForgetsOrder | backend/src/agent/instructionClosure.ts:157-241 | the order of the relations changes neither the outcome nor the content |
| InstructionClosure.AgreementKeepsContent | backend/src/agent/instructionClosure.ts:88-102 | inputs that agree on the closure, element for element by meaning and relation for relation, compile to the same content, whatever else differs |
| InstructionApprovals.CompileInstructionClosureFromRevision | backend/src/agent/instructionApprovals.ts:104-140 | compiles exactly when the revision names the Context, the element is a text element and the stored relations parse and compile; each error exactly in its case |
| InstructionApprovals.Approvals.ApproveInstruction | backend/src/agent/instructionApprovals.ts:142-197 | stores a stamp of the current closure under the approving user exactly when the reviewed hash is that of the closure |
| InstructionApprovals.Approvals.ReadInstructionApprovalStatus | backend/src/agent/instructionApprovals.ts:270-332 | reads the status of the stored stamp against the revision |
| InstructionApprovals.StampMatchesOnly | backend/src/agent/instructionApprovals.ts:292-331 | under an injective hash a stamp reads as approved exactly for the content it was made from |
| InstructionApprovals.RelationsForContextExactly | backend/src/agent/instructionApprovals.ts:63-92 | the stored relations parse exactly when every row is a record and those of the Context are complete, and then are the rows of the Context in order |
| InstructionApprovals.ApprovedExactlyWhileContentStands | backend/src/agent/instructionApprovals.ts:292-331 | approved in a later revision exactly when it compiles to the same set of elements meaning the same (id, type, words up to line endings, link) with the same typed relations leaving it |
| InstructionApprovals.EditsOutsideKeepApproval | backend/src/agent/instructionApprovals.ts:104-140 | any edits outside the closure keep the approval |
| InstructionApprovals.ReorderingKeepsApproval | backend/src/agent/instructionApprovals.ts:63-92 | reordering elements and stored relations keeps the approval |
| ContextIndex.Index.Resolve | backend/src/agent/boardMount.ts:330-351 | whatever was asked before, the cached answer is the nearest Context of the first element asked under that id |
| ContextIndex.NearestContext | backend/src/agent/boardMount.ts:332-350 | the uncached walk finds the first Context frame of the lineage and terminates on cyclic and dangling chains |
| ContextIndex.ElementIdsInContextFrame | backend/src/agent/elementGuestProvenance.ts:232-260 | the sorted listing of exactly the live elements with the frame in their lineage |
| ContextIndex.BelongsToFrame | backend/src/agent/elementGuestProvenance.ts:244-255 | the walk answers whether the frame is in the lineage |
| ContextIndex.LineageIsEveryAncestor | backend/src/agent/elementGuestProvenance.ts:244-255 | the frames a walk visits are exactly those reachable by some number of parent steps, on any chain |
| ContextIndex.FirstContextIsNearest | backend/src/agent/boardMount.ts:337-350 | the answer is a Context frame of the path with none before it, or the path has none |
| ContextIndex.ResolvedExactly | backend/src/agent/boardMount.ts:330-351 | an element resolves to a Context exactly when the nearest frame around it, counted in parent steps, that bounds any Context bounds that one |
| ContextIndex.WalkersAgree | backend/src/agent/boardMount.ts:323-353 | an element resolves to a Context exactly when the other walker lists it for some Context, and then to the nearest |
| GuestGate.AssertGuestElementWriteAllowed | backend/src/agent/boardContexts.ts:272-300 | the refused ids are exactly the changed ones some Context frame contains, and none for members or when the policy is on |
| GuestGate.GatesAgree | backend/src/agent/boardContexts.ts:284-299 | what the write gate protects is exactly what the read side resolves to a Context |
| GuestGate.AdmittedGuestWriteStaysOutside | backend/src/agent/boardContexts.ts:272-300 | a guest write that is let through leaves every element it changed outside every Context |
| GuestGate.ReviewRegisteredFrame | backend/src/agent/boardContexts.ts:196-213 | the review lists exactly the frame's elements without a clean row; exactly those without a row become touched, under a first revision, and no other row moves |
| GuestGate.RegistrationSettlesTheFrame | backend/src/agent/boardContexts.ts:203-213 | after registration every element of the frame has a row, exactly the same elements are clean as before, and only elements of the frame without a row became touched |
| ContextFrames.ValidateContextFrames | backend/src/agent/boardContexts.ts:77-127 | accepts exactly distinct live bounded frames whose bounds do not overlap; otherwise the error is that of the first offending Context |
| ContextFrames.BoundsEnclose | backend/src/agent/boardContexts.ts:38-68 | the axis-aligned bounds strictly contain every interior point of the rotated rectangle |
| ContextFrames.BoundsAreTight | backend/src/agent/boardContexts.ts:38-68 | a frame has bounds exactly if it is placed and not flat, and each side of them touches a corner of the rotated rectangle with no corner beyond |
| ContextFrames.ValidExactlyWhenSeparate | backend/src/agent/boardContexts.ts:70-125 | validation accepts exactly distinct, live, placed, non-flat frames such that no point lies strictly between the corners of two of them both ways |
| ContextFrames.AcceptedFramesShareNoPoint | backend/src/agent/boardContexts.ts:70-125 | when validation accepts, no point is strictly inside two rotated Context frames |
| ContextFrames.RegistryStaysValid | backend/src/agent/boardContexts.ts:151-239 | any sequence of attempted registrations and scene replacements keeps the registered set valid |
| ContextFrames.Registry.RegisterAgentContext | backend/src/agent/boardContexts.ts:151-195 | registers exactly when the frames with the candidate are valid, and otherwise changes nothing |
| ContextFrames.Registry.ReplaceScene | backend/src/agent/boardContexts.ts:224-239 | accepts a scene exactly when the registered frames stay valid in it |
| ElementProvenance.Table.RecordSuccessfulElementMutation | backend/src/agent/elementGuestProvenance.ts:70-105 | a guest leaves every non-empty id it names touched under its next revision, a member gives a clean first row to created elements without one, and no other row moves |
| ElementProvenance.Table.ConfirmElementGuestProvenance | backend/src/agent/elementGuestProvenance.ts:127-163 | without interference exactly the named elements end clean, each under its next revision, and no other row moves |
| ElementProvenance.DiffSceneElementIds | backend/src/agent/elementGuestProvenance.ts:205-229 | created ids are exactly the non-empty ids on the new scene and not on the old; changed ids are those, the removed ones, and those whose last element differs |
| ElementProvenance.RevisionsIncrease | backend/src/agent/elementGuestProvenance.ts:94-151 | over any stretch of any run rows stay and every change to a row raises its revision |
| ElementProvenance.RowsFollowActions | backend/src/agent/elementGuestProvenance.ts:70-163 | every action of a run on the rows: a mutation touches or creates exactly as recorded, a confirming write cleans one row under its next revision, anything else writes nothing |
| ElementProvenance.GuestTouchStands | backend/src/agent/elementGuestProvenance.ts:70-98 | over any run, what a guest changes or creates reads as touched in the very next state, and until a confirmation writes it |
| ElementProvenance.NoGuestTouchIsWashed | backend/src/agent/elementGuestProvenance.ts:134-161 | a confirmation that makes an element clean had no guest touch of it between its read and its write |
| ElementProvenance.ConfirmsExactlyTheRowRead | backend/src/agent/elementGuestProvenance.ts:141-161 | the guarded write goes through exactly when the row is still the one that was read |
| ElementProvenance.TouchedUntilConfirmed | backend/src/agent/elementGuestProvenance.ts:60-69 | a touched element stays touched until a confirmation writes it |
| ElementProvenance.CleanHasACause | backend/src/agent/elementGuestProvenance.ts:94-161 | over any run, an element that was not clean and is clean has been clean since a confirmation of it, or since a member created it while it had no row; only the former if it was guest-touched |
| ElementProvenance.MemberEditsWashNothing | backend/src/agent/elementGuestProvenance.ts:64-104 | a member's scene replacement changes no row, gives none to elements that were already there, and makes clean only what it added |
| BoardRevisions.Capture | backend/src/agent/boardMount.ts:138-140 | content is captured exactly when the Context frames are valid: the live objects in order, and every Context under its frame's name, sorted by id |
| BoardRevisions.ContentForgetsContextOrder | backend/src/agent/boardMount.ts:91-101 | the order in which the database returns Contexts is no part of the content |
| BoardRevisions.CapturedFramesAreValid | backend/src/agent/boardMount.ts:138-140 | the frames of a captured revision are valid in it |
| BoardRevisions.OneRevisionPerContent | backend/src/agent/boardMount.ts:177-211 | however materializations interleave, two calls settle on one revision exactly when the JSON they captured is the same up to key order and undefined keys |
| BoardRevisions.RevisionsAreImmutable | backend/src/agent/boardMount.ts:178-198 | a stored revision is never replaced |
| BoardTools.ExecuteAgentBoardTool | backend/src/agent/boardMount.ts:461-893 | every tool, working over what the two filters left, gives the answer or error specified for it, and the call counts exactly the elements of its Contexts that the provenance rows withhold |
| BoardTools.AllowedElements | backend/src/agent/boardMount.ts:472-535 | exactly the elements, in order, whose id resolves to a granted Context and that are a Context frame, or have a row no guest touched, or lie on a board where guests may contribute; the others in granted Contexts are counted |
| BoardTools.HomeExactly | backend/src/agent/boardMount.ts:330-351 | an id belongs to the Context of the nearest bounding frame around the first element that bears it |
| BoardTools.CountByType | backend/src/agent/boardMount.ts:675-688 | the counting loop gives the number of readable elements of each type |
| BoardTools.RelatedIds | backend/src/agent/boardMount.ts:757-783 | the neighbour loops give the sorted readable ids the source names or is named by |
| BoardAnswers.ToolsAnswerRightly | backend/src/agent/boardMount.ts:461-893 | each of the ten tools by the fields of the stored board: every error in its case, what an id, query, limit or edge end selects among the visible elements, in which order, and every field of what is shown of them |
| BoardConfinement.SameViewSameAnswer | backend/src/agent/boardMount.ts:673-893 | two mounts with the same readable elements, resolved Contexts, readable Contexts and named assets and files give the same answer or error to every tool |
| BoardConfinement.AnswersAreConfined | backend/src/agent/boardMount.ts:358-398 | every element id, Context, asset and drawn shape in an answer is one the mount may read |
| BoardConfinement.WithheldIsNeverAnswered | backend/src/agent/boardMount.ts:493-535 | every element id in any answer is in a granted Context; while guests may not contribute it is a Context frame or has a row that no guest touched |
| BoardConfinement.DrawnAndNamedAreVisible | backend/src/agent/boardMount.ts:808-850 | every shape of a drawing outlines such an element, and every asset shown is used by one |
| BoardConfinement.HiddenContentIsInvisible | backend/src/agent/boardMount.ts:513-534 | editing the content of any element outside the granted Contexts or withheld by its provenance row changes no answer |
| BoardConfinement.FrameIsAllowed | backend/src/agent/boardMount.ts:493-514 | the frame of a readable Context is always readable, whatever its provenance |
| ThreadLog.Database.CreateThread | backend/src/agent/boardContexts.ts:183-197 | a new thread starts with an empty log, and every log stays well-formed |
| ThreadLog.Database.AppendAgentThreadEvent | backend/src/agent/contextThread.ts:170-233 | appended exactly when the actor and payload have words within their limits, the thread is of the drawing, and a correction names a stored root of that thread; each error in its case and then without trace; otherwise the next sequence, the trimmed name and the given fields |
| ThreadLog.Database.ListAgentThreadEvents | backend/src/agent/contextThread.ts:235-258 | the events just after a sequence, as many as asked between 1 and 200, numbered without gap |
| ThreadLog.Database.ListAllAgentThreadEvents | backend/src/agent/contextThread.ts:394-407 | paging terminates and returns exactly the whole log in order, for every length |
| ThreadCorrections.ResolutionForgetsOrder | backend/src/agent/contextThread.ts:352-383 | resolving gives one answer for every order of the input |
| ThreadCorrections.ResolutionIsTheFold | backend/src/agent/contextThread.ts:352-383 | on every well-formed log, resolving equals one pass in sequence order |
| ThreadCorrections.ResolutionIsExact | backend/src/agent/contextThread.ts:352-383 | one entry for each root in sequence order: retracted exactly if some event retracts it, else edited exactly if some event edits it, with all its edits in order and the latest as current |
| ThreadCorrections.ResolutionOfAnyOrderIsTheFold | backend/src/agent/contextThread.ts:342-383 | a shuffled log resolves to the fold of the log |
| ThreadCorrections.RetractedNeverReturns | backend/src/agent/contextThread.ts:415-424 | once a retraction exists, no extension lets a run read the retracted root or an edit of it |
| ThreadCorrections.RetractionSurvivesAppends | backend/src/agent/contextThread.ts:321-329 | the same over the stored rows, whatever is appended to any thread |
| ThreadCorrections.RunShowsLatest | backend/src/agent/contextThread.ts:415-424 | a root never retracted is shown, by its latest edit if it has one |
| ThreadCorrections.RunReadsExactly | backend/src/agent/contextThread.ts:415-424 | a run reads exactly the roots no event retracts, each as its latest edit if it has one and as itself otherwise |
| CanonicalJson.NormalIsIdempotent | backend/src/agent/canonicalJson.ts:4-18 | normalizing twice is normalizing once |
| CanonicalJson.NormalFormsAgree | backend/src/agent/canonicalJson.ts:4-18 | two values share the normal form exactly when they are equal up to key order and undefined-valued keys |
| ContentHashes.HashesAgree | backend/src/agent/canonicalJson.ts:4-21 | two values share a hash exactly when they are equal up to key order and undefined-valued keys |
| ContentHashes.ClosureHashIsExact | backend/src/agent/instructionClosure.ts:246-258 | two closures share the closure hash exactly when Context, root, edges and nodes are equal |
| ContentHashes.SemanticHashIsExact | backend/src/agent/instructionClosure.ts:246-247 | two instructions share the semantic hash exactly when their projections are equal |
| ApplyOps.ApplyOperations | backend/src/agent/applyOps.ts:44-101 | the loop computes the specified result or the first failing id |
| ApplyOps.BatchesCompose | backend/src/agent/applyOps.ts:56-100 | a concatenated batch equals its parts in turn and fails exactly when one of them would |
| ApplyOps.ResultKeepsOrder | backend/src/agent/applyOps.ts:99-100 | the ids of the stored records keep their order and the created ones follow, in the order they were drawn |
| ApplyOps.RunFollows | backend/src/agent/applyOps.ts:71-96 | an element's version rises by exactly the operations addressing it, each field has its last patched value, and it is deleted exactly if an operation says so |
| ApplyOps.CreatedFollows | backend/src/agent/applyOps.ts:57-69 | a created element starts live at version 1 under the next draw and follows the later operations |
| ApplyOps.RunsExactlyWhenGrounded | backend/src/agent/applyOps.ts:71-77 | a batch succeeds exactly when every update and delete names an id that is there or created earlier and not yet deleted |
| ApplyOps.RefusesTheFirstUngrounded | backend/src/agent/applyOps.ts:71-77 | a refused batch names the id of its first operation that is not so grounded |

## Left out

- The runtime gateway, its event stream and re-authorization timers: a foreign start is one step with an arbitrary outcome.
- CoordinationStore.Store.AcquireContextLease: the second read after a won write is the written row here; under interleaving the source may return a later row, and nothing is claimed about that snapshot.
- Lease events, logs, error messages, `updatedAt` columns, the receipt projection and the runtime capability token: none decides an outcome.
- Cascade deletes of drawings, Contexts and threads.
- Visiting bindings in Context order: it only orders locks, so the released rows are stated as a set.
- ElementProvenance.Table.ConfirmElementGuestProvenance: the conflict error cannot arise in this uninterrupted call; the theorems about runs cover it.
- ElementProvenance.NoGuestTouchIsWashed: each guarded row write is its own step; the route also wraps a confirmation in a transaction, whose rollback of earlier rows after a conflict is not modelled.
- Secret comparison is equality. SHA-256 and the writing of a normal form to text are injective by assumption.
- BoardRevisions.OneRevisionPerContent: a call carries the JSON it hashes; how the captured record is laid out as JSON is not modelled, only that it has distinct keys and no undefined array entries.
- Unicode normalisation (`NFC`) of instruction text, locale collation (a lexicographic order or an arbitrary total order stands in) and ids containing NUL in concatenated sort keys.
- Floating-point rounding of frame bounds: reals with a cosine and a sine.
- Integer-like keys of JSON objects keep their own place in the order of keys; any total order is covered, so only the name of the order is left open.
- BoardTools.ExecuteAgentBoardTool: leaves out `revisionStatus`, the approval mark on text elements and focus events; asset bytes are a lookup and the drawing is the list of shapes rather than SVG text.
- The Context twins of the thread functions, which resolve a Context to its thread and delegate; corrupt stored rows; row timestamps.
- The bodies of thread payloads: a reference is kept as written together with the id it spells, and the canonical size as a number.
- `versionNonce` and `updated` of applied operations, which are random and clock values.
- Relation upserts and approval previews in `instructionApprovals.ts`: one guarded write and one read of what is already modelled.
- Run mounts, presence, access control and rate limits: they would only add easy members.
