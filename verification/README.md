# Verified model of the application-submission system

This project models the parts of the system that may submit a job application or change a tracked
application status, and proves what the rest of the system relies on: that one application is
submitted at most once whatever crashes, retries or lost reports occur, that every mutation of the
tracker is an allowed one that can be repaired, and that the checks around them mean what they say.

## How it is built

Two protocols carry most of the weight.

* **One submission.** `SubmissionLedger` is the durable one-row ledger, `NetworkBoundary` the one-use
  network boundary of a browser, and `SubmissionProtocol` puts any number of runs and dispatching
  clients over one ledger, in small steps, with crashes, exceptions, a page that does what it likes,
  and transactions that commit and then report failure. `ApplicationRuntime` is the driver as code:
  every step that its methods take is also a step of the protocol. `DurableSubmission` and
  `IntentProof` (with `ReceiptWitnesses`) are the second client of the ledger, and `OutcomePublish` the
  exclusive publication that follows a confirmation.
* **Guarded mutation.** `GuardedMutation` plans, `MutationRepository` stores, `MutationExecutor`
  writes in order and repairs, `MutationSafety` says what any run of planners and executors, with
  plans as late as can be and failures at every boundary, leaves behind, and `MutationReports` what
  the executor's answers are worth.

Around them: the fenced browser session and the prepare executor (`FencedSession`,
`PrepareExecutor`), the reviewed inputs and their compilation (`ReviewedInputs`), the SUBMIT-1 rules
(`SubmitPolicy`) and a day of them (`SubmitRollout`), keys and the history store (`Identity`,
`TmhRepository`), the rule for reconciling a confirmation (`AppliedReconciliation`), form reports
(`ShadowReports`, `RenderWait`), work-day arithmetic (`Workdays`) and signed requests
(`ExecutionRequest`). `Wrappers`, `Indexing` and `Sorting` are shared.

Code that changes state in place is a class here, with methods proved against a pure step function;
the properties are then lemmas about all histories of that function. Beside the main step functions
stand laws that do without them: when a step accepts, when it refuses and what it leaves, as if-and-only-ifs
over its inputs, with lemmas that the accepting side can be reached. Times are integers of
microseconds. SHA-256, HMAC, canonical JSON and the form fingerprint are function parameters, and are
taken to be collision-free only in the lemmas that say so. The browser, the page and the storage
faults are arbitrary inputs.

## What the proofs found

* A write-set that failed is not repaired by running the plan again: the keys already present suppress
  the second execution (`MutationSafety.RetryDoesNotRepair` gives the exact condition).
  The instance `MutationSafety.TwoFailuresLeaveAGap` takes two failures in one call, which the one-shot
  failure of the original's in-memory repository cannot produce; one failure is always repaired
  (`MutationSafety.SingleFailureIsTransparent`).
* The status fingerprint strips white space, so a stored status with padding passes the check although
  it is not itself the source of an allowed transition: `MutationSafety.ExactSourceIffTrimmed` says
  exactly when, and `MutationSafety.PaddedAppliedIsRejected` turns "Applied" with a trailing blank into
  Rejected.
* The loader accepts a required privacy box that is reviewed as False outside "Approved Policy";
  SUBMIT-1 then blocks it, and that is the only accepted field it blocks
  (`ReviewedInputs.AcceptedFieldIsClear`, with such a field in
  `ReviewedInputs.AnUncoveredBoxIsAccepted`).
* A ready result may still be refused by the receipt. `DurableSubmission.ReadyResultPassesIff` gives the
  exact condition, in terms of the request and the page. `ReceiptWitnesses` shows three ready
  results that miss it: from two plans for one control, which only the receipt forbids; from a padded field
  name, which the executor strips and the receipt compares as it stands; and from a digest in upper case.
  The last needs a page that replaces its built-ins, as the code reads the digest from the page and writes it in lower
  case itself (`src/ejs/services/file_uploader.py` lines 343 and 359).
* Whatever the ledger records may be reconciled to Applied, but not the other way round.
  `AppliedReconciliation.ReconcilableIsRecordedIff` and `ReconcilableIsReaffirmedIff` say exactly when the
  ledger records, or affirms, what may be reconciled; `ReconcilableMayBeUnrecorded` is evidence without an
  execution id, which it never records.
* Pipeline keys are joined by colons, and the date is used as it stands: two different events can share a key
  when only one of the opportunities has a country and the other date contains a colon.
  `GuardedMutation.PipelineKeysMeetIff` says exactly when, and `GuardedMutation.KeysCanMeet` gives instances.
* The list of forbidden fields in the plan check forbids nothing that the allowlists do not already forbid
  (`PrepareExecutor.WritableIff`).
* The executor's report that a repair has executed a mutation looks at the repository's whole count, so it
  may speak of an earlier mutation (`MutationReports.ReportIsTrue` says exactly what each flag tells).
* The final rereading before the reservation may still let the page send something: it is denied, the slot is
  consumed all the same, and the run ends unconfirmed (`ApplicationRuntime.SingleApplicationRuntime.Execute`,
  where `QuietAnswers` is needed for the confirmation and not for the start).
* Moving report keys under a scope is safe because the extractor prefixes them; without the prefix two
  keys can meet (`ShadowReports.UnprefixedKeysCanMeet`).
* A form that first appears in the last observation of the render wait is reported as an exhausted
  budget (`RenderWait.WaitForRenderStructure`).
* A crash between link and unlink of the publication leaves a file that no publisher accepts or
  replaces (`OutcomePublish.CrashedWinnerBlocksForever`; `OutcomePublish.AWinnerCanCrash` leads there).

## Model

| member | source | states |
|---|---|---|
| SubmissionProtocol.AtMostOneSubmission | src/ejs/services/single_application_runtime.py:181-276 | Over every execution by any number of runs and clients: at most one reported start, one submit call, one application POST let through and one confirmation, each needing the one before; a start given to a dispatching client leaves none for runs |
| SubmissionProtocol.ReachableInv | src/ejs/services/single_application_runtime.py:181-276 | The inductive invariant over ledger row, runs, boundaries and clients holds in every reachable state, including after crashes and lost reports |
| SubmissionProtocol.IntentPrecedesEffect | src/ejs/services/single_application_runtime.py:254-257 | A step that calls submit or lets an application POST through happens only when the stored row is already started and carries that run's submit key and execution |
| SubmissionProtocol.ConfirmedRunIsBacked | src/ejs/services/single_application_runtime.py:264-268 | A run that returns EMPLOYER_CONFIRMED has had its own POST let through, the ledger is Confirmed with its identities and evidence, and no other run is confirmed: then and in every continuation |
| SubmissionProtocol.FinishedIsFinal | src/ejs/services/single_application_runtime.py:181-276 | A run that has returned keeps its outcome and job in every continuation |
| SubmissionProtocol.RecordNeverChanges | src/ejs/persistence/submission_ledger.py:222-279 | Whatever happens later, the stored row is only extended: no identity, time or evidence is lost or altered |
| SubmissionProtocol.DispatchIsBound | src/ejs/services/durable_submission.py:187-202 | Although binding check and start are two transactions, when a dispatch intent is issued the row still carries the digest of the proof that client checked |
| SubmissionProtocol.ACleanRunConfirms | src/ejs/services/single_application_runtime.py:252-268 | The guarantees are not empty: for every job there is an execution that reaches a confirmed employer with exactly one POST |
| SubmissionLedger.ApplyKeepsSchema | src/ejs/persistence/submission_ledger.py:182-220 | One transaction, whatever the fault, keeps everything the schema check demands and only extends the row |
| SubmissionLedger.SchemaHoldsThroughout | src/ejs/persistence/submission_ledger.py:182-220 | Over every sequence of operations the stored row stays valid, so reopening never reports an invalid state |
| SubmissionLedger.RecordIsAppendOnly | src/ejs/persistence/submission_ledger.py:222-279 | Over every sequence of operations the status only moves forward and accepted columns and evidence never change |
| SubmissionLedger.StartReportedAtMostOnce | src/ejs/persistence/submission_ledger.py:247-255 | At most one mark_started of any sequence of calls reports success |
| SubmissionLedger.IntentGrantedAtMostOnce | src/ejs/persistence/submission_ledger.py:222-236 | At most one reserve_intent of any sequence of calls is granted |
| SubmissionLedger.ReconfirmIsIdempotent | src/ejs/persistence/submission_ledger.py:265-279 | Confirming again succeeds only with identical evidence, and changes nothing |
| SubmissionLedger.LostReportStillConsumesSlot | src/ejs/persistence/submission_ledger.py:143-180 | A reservation that commits and then fails to report still occupies the slot: no later reservation is granted |
| SubmissionLedger.ReserveIff | src/ejs/persistence/submission_ledger.py:222-236 | Each answer of a reservation, and the change of the row, as an if-and-only-if: granted exactly to a validated attempt with opaque ids, requested no later than now, on an empty slot without a fault; every stored column |
| SubmissionLedger.StartIff | src/ejs/persistence/submission_ledger.py:247-255 | The same for a start: done exactly with a UTC time and opaque ids on a Validated row of these two keys, at or after its reservation, without a fault; the row gains this time and nothing else |
| SubmissionLedger.RecordIff | src/ejs/persistence/submission_ledger.py:257-279 | The same for a confirmation: recorded exactly on a started row of these three keys, for exact evidence under a digest observed between the start and now; affirmed exactly on identical evidence and time |
| SubmissionLedger.QuestionsAreAnswered | src/ejs/persistence/submission_ledger.py:238-292 | The three questions change nothing and are answered from the row, or with the storage failure |
| SubmissionLedger.SchemaIsReachable | src/ejs/persistence/submission_ledger.py:182-220 | The schema check demands no more than the operations keep: every row that passes it, with opaque ids behind it, is left by some sequence of operations |
| SubmissionLedger.SqliteSubmissionLedger.Reserve | src/ejs/persistence/submission_ledger.py:222-236 | The stored row and the answer are those of the reservation transaction, which `ReserveIff` spells out, and the row is only extended |
| SubmissionLedger.SqliteSubmissionLedger.Start | src/ejs/persistence/submission_ledger.py:247-255 | The stored row and the answer are those of the start transaction, which `StartIff` spells out, and the row is only extended |
| SubmissionLedger.SqliteSubmissionLedger.Record | src/ejs/persistence/submission_ledger.py:257-279 | The stored row and the answer are those of the confirmation transaction, which `RecordIff` spells out, and the row is only extended |
| SubmissionLedger.SqliteSubmissionLedger.Occupied | src/ejs/persistence/submission_ledger.py:243-245 | Reports whether an intent is stored, or the storage failure, and changes nothing |
| SubmissionLedger.SqliteSubmissionLedger.Read | src/ejs/persistence/submission_ledger.py:281-292 | Reports the stored row, or the storage failure, and changes nothing |
| NetworkBoundary.ApplicationPostAllowedIff | src/ejs/services/oneclick_target.py:206-237 | An application POST is let through exactly when it is the first one of the whole history, is no navigation, and begin_submit succeeded before |
| NetworkBoundary.UploadPostAllowedIff | src/ejs/services/oneclick_target.py:206-237 | An upload POST is let through exactly when it is the first one inside the one open upload window and no application POST came before |
| NetworkBoundary.OtherWritesDenied | src/ejs/services/oneclick_target.py:206-237 | No other write, and no malformed call, is ever let through |
| NetworkBoundary.ReadAllowedIff | src/ejs/services/oneclick_target.py:206-220 | Over any history a GET or HEAD is let through exactly as a document navigation to a page of the target, or without navigation to a reviewed address; it changes no field |
| NetworkBoundary.ConfigureIs | src/ejs/services/oneclick_target.py:128-156 | The navigation addresses are exactly the three pages of the target, the readable ones those and the reviewed ones, and the two endpoints differ |
| NetworkBoundary.ReadPhaseIsQuietIff | src/ejs/services/oneclick_target.py:206-237 | Outside the windows a list of requests leaves nothing denied exactly when it only reads, and then changes nothing |
| NetworkBoundary.UploadPhaseIsQuietIff | src/ejs/services/oneclick_target.py:206-237 | In the upload window exactly when it reads and posts at most once, to the upload endpoint |
| NetworkBoundary.SubmitPhaseIsQuietIff | src/ejs/services/oneclick_target.py:206-237 | When armed, one POST to the application endpoint and nothing else is what gets through with nothing denied |
| NetworkBoundary.PhaseChangeAcceptedIff | src/ejs/services/oneclick_target.py:185-204 | Exactly when opening and closing the upload window and arming the submission are accepted, in terms of the history alone |
| NetworkBoundary.AtMostOneOfEach | src/ejs/services/oneclick_target.py:206-237 | Over the life of a boundary at most one application POST and at most one upload pass |
| NetworkBoundary.ClosedIsAbsorbing | src/ejs/services/oneclick_target.py:206-237 | Once closed, no continuation of the history leaves that phase or lets another write pass |
| NetworkBoundary.EveryWriteAccounted | src/ejs/services/oneclick_target.py:206-237 | Blocked plus allowed uploads plus allowed applications equals the calls that were no reads; attempts equals the application POSTs |
| NetworkBoundary.HistoryDescribesState | src/ejs/services/oneclick_target.py:185-237 | Every field of the boundary is determined by facts about the history of calls |
| NetworkBoundary.OneClickNetworkBoundary.AllowsRequest | src/ejs/services/oneclick_target.py:206-237 | The new fields and the verdict are those of one step, and of the history extended by the call, for which the four iffs above say what is let through |
| NetworkBoundary.OneClickNetworkBoundary.BeginUploadPhase | src/ejs/services/oneclick_target.py:185-190 | Opens the window or refuses, as the history extended by the call says |
| NetworkBoundary.OneClickNetworkBoundary.EndUploadPhase | src/ejs/services/oneclick_target.py:192-196 | Closes the window or refuses, as the history extended by the call says |
| NetworkBoundary.OneClickNetworkBoundary.BeginSubmitPhase | src/ejs/services/oneclick_target.py:198-204 | Arms the one submission or refuses, as the history extended by the call says |
| ApplicationRuntime.SingleApplicationRuntime.Execute | src/ejs/services/single_application_runtime.py:181-276 | Every outcome as an if-and-only-if over manifest, sources, page, review, authority, ledger and storage: disabled, duplicate, past the start, and EMPLOYER_CONFIRMED exactly when the slot was free, everything was established, both transactions went through, the page sent one plain application POST and nothing else, and the employer acknowledged it in time; likewise exactly when the slot is consumed, and the whole row that is then left. Ledger, boundary and outcome are where an execution of the protocol that continues the earlier one leaves this run |
| ApplicationRuntime.EveryManifestCanBeConfirmed | src/ejs/services/single_application_runtime.py:181-276 | The condition of `Execute` can be met for every manifest that opens, with one upload and an allowed review: a page that behaves and a storage without faults make its run end confirmed |
| ApplicationRuntime.SurfaceIs | src/ejs/services/single_application_runtime.py:278-288 | A surface passes exactly with the reviewed address and fingerprint, nothing in the way, and as required keys those of the required bindings and the upload |
| ApplicationRuntime.UploadIs | src/ejs/services/single_application_runtime.py:220-228 | An upload is verified exactly on the approved digest, size and name, a visible attachment with a digest, and the endpoint of that name |
| ApplicationRuntime.OpensIs | src/ejs/services/single_application_runtime.py:185-206 | The browser is opened exactly for a manifest at most a day old that begins and ends at the pages of the target and agrees with posting and CV |
| ApplicationRuntime.UploadsAreCounted | src/ejs/services/single_application_runtime.py:220-237 | The uploads of a manifest are the number of its pages with a file control |
| ApplicationRuntime.SingleApplicationRuntime.FillForm | src/ejs/services/single_application_runtime.py:209-237 | Succeeds exactly when one upload was planned and every page was filled: surface as reviewed before and after each write, each value shown when written and when reread, the upload verified, the advance done, and nothing denied |
| ApplicationRuntime.SingleApplicationRuntime.FillStep | src/ejs/services/single_application_runtime.py:211-236 | One page, exactly: surface, every binding written between two surface checks, at most one upload in all, surface, rereading, and advancing unless it is the last |
| ApplicationRuntime.SingleApplicationRuntime.WriteBindings | src/ejs/services/single_application_runtime.py:212-219 | Succeeds exactly when each field showed its reviewed value right after it was written, between two reviewed surfaces, while the page only read |
| ApplicationRuntime.SingleApplicationRuntime.RereadBindings | src/ejs/services/single_application_runtime.py:229-233 | Success exactly when every field of the page shows its reviewed value |
| ApplicationRuntime.SingleApplicationRuntime.UploadFile | src/ejs/services/oneclick_browser.py:320-341 | Succeeds with nothing denied exactly when the call did not raise, digest, size, name and endpoint seen are those of the reviewed CV, and the page sent nothing but reads and at most one POST to the upload endpoint; the window is closed whatever happens in it |
| ApplicationRuntime.SingleApplicationRuntime.SubmitOnce | src/ejs/services/oneclick_browser.py:353-377 | The boundary is armed only if nothing was denied or attempted before; succeeds exactly when neither half raises, one application POST and nothing else is sent, and nothing was denied; any failure after the start leaves the run unconfirmed |
| ApplicationRuntime.SingleApplicationRuntime.ReserveIntent | src/ejs/services/single_application_runtime.py:253-254 | Reserves exactly on a review at most two minutes old, opaque ids, a clock not behind the review, and no storage failure; otherwise the run is over |
| ApplicationRuntime.SingleApplicationRuntime.SubmitPrepared | src/ejs/services/single_application_runtime.py:253-268 | From the prepared form to the outcome, exactly: when the slot is consumed, when the run starts and when the employer is confirmed, in step with the protocol |
| ApplicationRuntime.SingleApplicationRuntime.PrepareForm | src/ejs/services/single_application_runtime.py:209-252 | Succeeds exactly on a filled form, a ready final page, an allowed SUBMIT-1 execution and a final page that still reads as reviewed; the ledger is untouched |
| DurableSubmission.AcceptedReceiptMeans | src/ejs/services/durable_submission.py:66-154 | An accepted receipt gives every required control exactly one verified readback of its field over both lists, declares exactly one required CV control and has its file, keeps all readback keys distinct and declared, and reports as attempts exactly the verified writes and upload |
| DurableSubmission.ReceiptAcceptedIff | src/ejs/services/durable_submission.py:66-154 | A receipt is accepted exactly when it is in order, its counters balance, its lists bind, every readback stands and every required control is answered, each stated over the entries and not through the checks |
| DurableSubmission.RequiredControlsAnsweredOnce | src/ejs/services/durable_submission.py:115-153 | In an accepted receipt every required control has exactly one readback over both lists, of its own field, and it is verified |
| DurableSubmission.ExactlyOneRequiredCv | src/ejs/services/durable_submission.py:134-149 | An accepted receipt declares exactly one required CV control, and the one attached file is for it |
| DurableSubmission.OutcomesAreDistinct | src/ejs/services/durable_submission.py:115-128 | Field and file keys are pairwise distinct over both lists together, and so are the declared controls |
| DurableSubmission.ReadbacksAreDeclared | src/ejs/services/durable_submission.py:115-119 | Every readback is for a declared control of the same canonical field |
| DurableSubmission.AttemptsAreVerified | src/ejs/services/durable_submission.py:129-136 | Write attempts equal the number of verified writes, and upload attempts the verified upload |
| DurableSubmission.ReadyResultPassesIff | src/ejs/services/durable_submission.py:115-148 | A ready executor result passes the receipt's counters, key bindings and readback checks exactly when the plans themselves bind to the reviewed controls, no planned field name is padded, one CV is uploaded, and the page reports its digest in lower case |
| DurableSubmission.ReadyKeysDistinctIff | src/ejs/services/durable_submission.py:115-128 | The readback keys of a ready result are distinct exactly when no two plans of the request share a control; a field and a file never share one |
| DurableSubmission.ReadyKeysBindIff | src/ejs/services/durable_submission.py:115-128 | All of the receipt's key checks on a ready result, as one condition on the request's plans |
| DurableSubmission.KeysBindIff | src/ejs/services/durable_submission.py:115-128 | The comparisons of dictionaries and list sizes hold exactly when, as lists, both outcome lists have distinct keys, share none, and answer declared controls |
| DurableSubmission.ReadbacksPassIff | src/ejs/services/durable_submission.py:120-148 | The counters balance and the readbacks pass exactly on one upload, unpadded names and a lower-case digest, from complete results that tell what the page showed, whatever else the result says |
| ReceiptWitnesses.WitnessIsReady | src/ejs/services/smartrecruiters_executor.py:307-347 | Any plans for the one text control of a concrete page and form, and any spelling of the CV's digest, lead to a ready result |
| ReceiptWitnesses.TwoPlansForOneControl | src/ejs/contracts/smartrecruiters_execution.py:72-111 | A ready result from two plans for one control, which no reviewed request binds |
| ReceiptWitnesses.PaddedNameIsRefused | src/ejs/services/durable_submission.py:120-128 | A ready result from a field name with a leading blank, whose readback the receipt refuses |
| ReceiptWitnesses.UpperCaseDigestIsRefused | src/ejs/services/durable_submission.py:137-148 | A ready result from a page that reports the digest in upper case, which the receipt refuses |
| ReceiptWitnesses.AReceiptIsAccepted | src/ejs/services/durable_submission.py:66-154 | All checks can be passed at once: a concrete request and result that is accepted, with a validation that may be executed |
| Indexing.SizeTestsDistinctness | src/ejs/services/durable_submission.py:115-128 | Comparing a list with the dictionary built from it by size is exactly a test for distinct keys |
| IntentProof.ProofIsExact | src/ejs/services/durable_submission.py:156-170 | With a collision-free hash and encoding, two proofs are equal exactly when the same content is bound: keys, target, form, CV and the multisets of readbacks and sources |
| IntentProof.ProofIgnoresOrder | src/ejs/services/durable_submission.py:156-170 | Reordering field results and controls leaves the proof unchanged, with no assumption on the hash |
| IntentProof.DispatchedContentIsReserved | src/ejs/services/durable_submission.py:187-202 | In every execution of the shared protocol the content behind an issued dispatch intent is the content the intent was reserved for |
| IntentProof.DurableSingleSubmission.Reserve | src/ejs/services/durable_submission.py:172-185 | Every report, and the change of the ledger, as an if-and-only-if: granted exactly for an accepted receipt with execution allowed on an empty ledger without a fault, which then holds exactly this intent under its proof; the call is a continuation of any execution of the shared protocol |
| IntentProof.DurableSingleSubmission.RecordBeforeDispatch | src/ejs/services/durable_submission.py:187-202 | Every report, and the change of the ledger, as an if-and-only-if: the row is started exactly for an accepted receipt whose keys and proof are those stored, not before its reservation; two steps of the shared protocol, and an intent it reports is the first and only one of the whole execution |
| IntentProof.DurableSingleSubmission.Reconcile | src/ejs/services/durable_submission.py:204-206 | A recorded confirmation leaves the row Confirmed with the evidence offered; the call is a step of the shared protocol |
| IntentProof.DurableSingleSubmission.Review | src/ejs/services/durable_submission.py:57-154 | Passes exactly the accepted receipts that SUBMIT-1 can validate, with its validation |
| Sorting.SortedIsCanonical | src/ejs/services/durable_submission.py:163-168 | Two lists sort to the same list exactly when they have the same contents |
| GuardedMutation.PlannerIsGuarded | src/ejs/services/guarded_mutation.py:61-244 | Every plan that may mutate comes from an allowlisted transition out of the state it was made on, captures its fingerprint, and holds both keys |
| GuardedMutation.PlannerMutatesIff | src/ejs/services/guarded_mutation.py:61-244 | Exactly when the planner hands out a mutation, as a condition on signal, state, keys and authority |
| GuardedMutation.PlannerAnswers | src/ejs/services/guarded_mutation.py:61-244 | The whole plan for every input: refusals, the disposition, keys, target and captured state, in terms of signal, observed state, logged keys and authority |
| GuardedMutation.AllowedIff | src/ejs/contracts/mw5.py:8-19 | The allowlist is exactly To Apply to Applied under ST-01, and an active application to Rejected under ST-07 |
| GuardedMutation.AuthorityIff | src/ejs/contracts/mw5.py:97-114 | An authority is valid exactly with its three write scopes, none of the forbidden ones, and transitions from the allowlist alone |
| GuardedMutation.FingerprintIsExact | src/ejs/contracts/mw5.py:56-73 | Two states have one fingerprint exactly when their five stripped columns agree |
| GuardedMutation.OpportunityKeyIsExact | src/ejs/contracts/mw5.py:28-33 | Two opportunities share a key exactly when normalised company, role and, if any, country agree |
| GuardedMutation.PipelineKeysMeetIff | src/ejs/contracts/mw5.py:41-53 | Exactly when two events share a pipeline key: all parts agree after normalisation, or one opportunity has a country and every part has moved by one place, down to a date that starts with the other's state |
| GuardedMutation.PipelineKeyIs | src/ejs/contracts/mw5.py:41-53 | A pipeline key is given exactly for visible parts, and consists of them |
| GuardedMutation.KeysCanMeet | src/ejs/contracts/mw5.py:41-53 | The moved places occur between two allowlisted transitions, for any date and evidence |
| GuardedMutation.PatchValidIff | src/ejs/services/mw5_workspace.py:31-54 | A patch is valid exactly with status and update date and, for its rule, the fields that the rule needs and none that it forbids |
| GuardedMutation.PatchesAreBuiltIff | src/ejs/services/mw5_workspace.py:56-65 | Cells are built exactly for a row below the header and a patch that its rule allows |
| GuardedMutation.AllowedIsTrimmedAndDescending | src/ejs/contracts/mw5.py:8-19 | Every allowlisted transition strictly lowers the rank and none leaves Rejected |
| GuardedMutation.PatchIsExact | src/ejs/services/mw5_workspace.py:31-65 | The patch of a planner-made plan can always be built: one cell for every target field and no other, in column order, the new status first |
| MutationRepository.InMemoryMutationRepository.Update | src/ejs/persistence/mutation_memory.py:68-94 | Compare and set: the stored state changes only when its fingerprint is the expected one, counted once, before any injected failure |
| MutationRepository.InMemoryMutationRepository.AppendOutcomeKey | src/ejs/persistence/mutation_memory.py:60-66 | The key is added and counted once; a present key changes nothing |
| MutationRepository.InMemoryMutationRepository.AppendPipelineKey | src/ejs/persistence/mutation_memory.py:96-102 | The key is added and counted once; a present key changes nothing |
| MutationRepository.InMemoryMutationRepository.Reconcile | src/ejs/persistence/mutation_memory.py:104-110 | The opportunity is marked reconciled and counted once; a marked one changes nothing |
| MutationRepository.UpdateIff | src/ejs/persistence/mutation_memory.py:68-94 | Each answer of compare and set, and the new repository, as an if-and-only-if over the stored state, the expected fingerprint and the armed failure |
| MutationRepository.AppendIff | src/ejs/persistence/mutation_memory.py:60-110 | Each answer of the three append-only writes as an if-and-only-if, and what they leave |
| MutationRepository.PatchedIs | src/ejs/persistence/mutation_memory.py:68-94 | A patch changes exactly the target columns that the tracker stores |
| MutationExecutor.ExecuteGuardedMutation | src/ejs/services/mw5_executor.py:98-179 | The repository and the result after the checks, the ordered writes and the repair are those of the execution function that `MutationReports` and `MutationSafety` are about |
| MutationExecutor.WriteOrdered | src/ejs/services/mw5_executor.py:133-153 | The four writes in order, stopping at the first that raises |
| MutationExecutor.RepairMissing | src/ejs/services/mw5_executor.py:69-95 | Fills what is missing and keeps what is there, also when the state moved on |
| MutationExecutor.SnapshotResult | src/ejs/services/mw5_executor.py:55-66 | The reported postcondition is read from the repository, not from what was attempted |
| MutationReports.AnswerIff | src/ejs/services/mw5_executor.py:98-131 | For every plan, authority and repository: refused, suppressed, switched off, concurrent change, or a writing answer, each exactly on its own condition |
| MutationReports.ReportIsTrue | src/ejs/services/mw5_executor.py:55-179 | No report tells what is not so: only a writing answer changes the repository or claims a mutation or a repair, and every flag that was read is what the repository holds |
| MutationReports.StatusCountsFailures | src/ejs/services/mw5_executor.py:133-179 | Of a fresh mutation: committed with no failure ahead, repaired with exactly one, repair failed with two or more |
| MutationReports.MutationIsTheSignal | src/ejs/services/mw5_executor.py:98-153 | A step that writes is for the signal's own opportunity, logs its message, and leaves the row that the signal describes; all other rows stay |
| MutationReports.RepairCompletesIff | src/ejs/services/mw5_executor.py:69-95 | From any repository the repair completes exactly when nothing still missing runs into a failure and the row is at its target or the one the plan was made on |
| MutationReports.MovedOnIsLeftAlone | src/ejs/services/mw5_executor.py:69-95 | A row that moved on is not repaired, and nothing that would follow it is written |
| MutationSafety.SingleFailureIsTransparent | src/ejs/services/mw5_executor.py:133-179 | One failure at any boundary ends with the states, keys and derived rows of the failure-free execution, each counter raised by exactly one and the postcondition true |
| MutationSafety.ExecuteWritesPrefix | src/ejs/services/mw5_executor.py:98-179 | Under any set of failures what persists is a prefix of outcome, application, pipeline, derived; its length is a function of the failures, and the reported status and postcondition follow it |
| MutationSafety.RetryDoesNotRepair | src/ejs/services/mw5_executor.py:122-131 | A later retry of the plan changes nothing; it finds a complete write-set exactly when the first execution left one |
| MutationSafety.TwoFailuresLeaveAGap | src/ejs/services/mw5_executor.py:122-131 | A concrete opportunity whose pipeline row stays missing after two failures, however often the plan is executed |
| MutationSafety.StatusChangesAreAllowed | src/ejs/services/mw5_executor.py:98-153 | With plans executed arbitrarily late, every status change is an allowlisted transition from the stored status up to white space, lowers the rank, and changes no other opportunity |
| MutationSafety.ExactSourceIffTrimmed | src/ejs/contracts/mw5.py:56-73 | The stored text itself is the source of the transition exactly when it has no surrounding white space |
| MutationSafety.PaddedStatusIsMutated | src/ejs/services/mw5_executor.py:98-153 | For every permitted signal, a stored status padded after planning is still mutated, and the transition out of the padded text is in no allowlist |
| MutationSafety.PaddedAppliedIsRejected | src/ejs/contracts/mw5.py:56-73 | An instance: a stored "Applied" with a trailing blank becomes Rejected |
| MutationSafety.RejectedIsTerminal | src/ejs/contracts/mw5.py:8-19 | Over any run a rejected opportunity never changes again |
| MutationSafety.MutationsAreBounded | src/ejs/services/mw5_executor.py:98-153 | Over any run the application mutations are paid for by the initial ranks, hence at most twice the number of opportunities |
| MutationSafety.MessageMutatesAtMostOnce | src/ejs/services/mw5_executor.py:121-131 | A Gmail message, however often planned and executed, changes a state at most once |
| MutationSafety.CountersCountKeys | src/ejs/persistence/mutation_memory.py:60-110 | Over any run every counter is the growth of what it counts, and application mutations equal outcome appends |
| OutcomePublish.VisibleIsComplete | src/ejs/services/application_outcome.py:86-132 | For any interleaving of publishers with crashes, a visible target is one publisher's complete payload |
| OutcomePublish.VisibleNeverChanges | src/ejs/services/application_outcome.py:86-132 | Once visible, the target never changes, and neither does a result already returned |
| OutcomePublish.ReturnsAgree | src/ejs/services/application_outcome.py:61-132 | Every publisher that returns normally has a payload equal to the visible bytes, and at most one returns True |
| OutcomePublish.CrashedWinnerBlocksForever | src/ejs/services/application_outcome.py:61-83 | A crash between link and unlink leaves two links, and no publisher ever returns normally afterwards |
| OutcomePublish.AWinnerCanCrash | src/ejs/services/application_outcome.py:61-132 | For every payload that is not empty there is an execution that ends with such a crashed winner |
| OutcomePublish.FirstPublisherAnswers | src/ejs/services/application_outcome.py:86-132 | After any execution without a target, an undisturbed publisher makes its payload visible under one name and returns True |
| OutcomePublish.SecondPublisherAnswers | src/ejs/services/application_outcome.py:61-100 | One that meets a target returns False exactly when that file is settled, of an acceptable size and equal, raises otherwise, and changes nothing |
| OutcomePublish.LoserAnswers | src/ejs/services/application_outcome.py:106-132 | One that loses the race takes its own file away, and answers in the same way |
| OutcomePublish.FaultsAreRaised | src/ejs/services/application_outcome.py:86-132 | An exception, or a write without progress, is raised, never returned; the temporary name goes if it can, everything else stays |
| OutcomePublish.LeftoverIsRaised | src/ejs/services/application_outcome.py:121-132 | A result is not returned while the publisher's temporary name stays behind |
| OutcomePublish.WriteAll | src/ejs/services/application_outcome.py:101-105 | The partial-write loop ends having written exactly the payload, or a prefix after a write that made no progress |
| OutcomePublish.ConfirmedRunCanPublish | src/ejs/services/application_outcome.py:135-172 | What a confirmed run may publish is supported by the ledger forever after, and with a collision-free hash nothing else is; that its ids are opaque follows from its reservation |
| FencedSession.ReadyIsCertified | src/ejs/services/fenced_application_session.py:221-272 | In every sequence of calls a ready session ran the executor once, on the token of the latest inspection, within the observation age and session time, saw the reviewed controls at the end, and had no event denied by then |
| FencedSession.OnePreparationAndSilence | src/ejs/services/prepare_network_fence.py:41-95 | Over any call sequence the executor runs at most once, no request is let through after the first write or upload, and none can be |
| FencedSession.DenialIsFinal | src/ejs/services/prepare_network_fence.py:58-95 | After a denied event during preparation no continuation is ready |
| FencedSession.CountersFreeze | src/ejs/services/fenced_application_session.py:221-272 | Once the preparation is over no continuation changes the attempt counters or runs the executor again |
| FencedSession.EventsOnlyBlock | src/ejs/services/prepare_network_fence.py:41-95 | Network events change nothing but the fence's verdict, and the fence is blocked exactly when some event was not permitted |
| FencedSession.PermitsIff | src/ejs/services/prepare_network_fence.py:41-56 | The fence lets through exactly the target document and plain static files of its origin, before the filling |
| FencedSession.ActiveIff | src/ejs/services/fenced_application_session.py:155-169 | The guard of every call passes exactly in the phases of the call, with a clear fence, in time, on a live page; where it leaves the session otherwise |
| FencedSession.ExamineIff | src/ejs/services/fenced_application_session.py:171-181 | A page is examined exactly when the guard passes before and after it and its events are permitted |
| FencedSession.EnterIff | src/ejs/services/fenced_application_session.py:68-124 | A session opens exactly when it is new and its page loads at its address, starting only what is permitted |
| FencedSession.InspectIff | src/ejs/services/fenced_application_session.py:183-205 | An inspection succeeds exactly on an active session and a page that can be examined |
| FencedSession.InspectEnds | src/ejs/services/fenced_application_session.py:183-205 | How a failed inspection leaves the session: closed and expired ones stay, an active one expires exactly when its time runs out, all else is blocked |
| FencedSession.BeginIff | src/ejs/services/fenced_application_session.py:207-237 | The executor may run exactly once, on the current token within its age, for this target, on an unchanged page |
| FencedSession.SurfaceIff | src/ejs/services/smartrecruiters_executor.py:166-191 | The executor's check passes exactly while the page shows the fingerprinted controls and nothing in the way |
| FencedSession.ConcludeIff | src/ejs/services/fenced_application_session.py:238-272 | A session becomes ready exactly on a proposal and a last examination, in time, that still shows the reviewed controls |
| FencedSession.AStillPageBecomesReady | src/ejs/services/fenced_application_session.py:68-272 | The conditions can all be met: any page that keeps showing one form, with nothing in the way, is prepared to the end |
| FencedSession.FencedApplicationSession.EnterSession | src/ejs/services/fenced_application_session.py:68-124 | Opens exactly as `EnterIff` says; the session is where its history of calls leads |
| FencedSession.FencedApplicationSession.InspectPage | src/ejs/services/fenced_application_session.py:183-205 | Succeeds exactly on an active session and a page that can be examined, and leaves exactly this observation under its token; anything else blocks or expires the session |
| FencedSession.FencedApplicationSession.Begin | src/ejs/services/fenced_application_session.py:207-237 | The executor may start exactly on the current token within its age, for this target, on a page that still shows what was inspected, once, with all counters at zero |
| FencedSession.FencedApplicationSession.Conclude | src/ejs/services/fenced_application_session.py:238-272 | The session is ready exactly when the executor proposed it and the page, examined once more in time, still shows the reviewed controls; the counters are untouched |
| FencedSession.FencedApplicationSession.CheckSurface | src/ejs/services/smartrecruiters_executor.py:166-191 | Succeeds exactly during an active preparation with a clear fence while the page shows the fingerprinted controls and nothing in the way |
| FencedSession.FencedApplicationSession.HandleEvents | src/ejs/services/prepare_network_fence.py:58-86 | The route callback over any list of events equals the pure fold |
| PrepareExecutor.WriteFields | src/ejs/services/smartrecruiters_executor.py:195-216 | Completes exactly when every plan in turn could be examined, written where it did not match, and read back; each result tells what the page showed, and the session counted exactly the mutations |
| PrepareExecutor.AttachFiles | src/ejs/services/smartrecruiters_executor.py:218-262 | The same, exactly, for uploads |
| PrepareExecutor.WriteOneField | src/ejs/services/smartrecruiters_executor.py:195-216 | One plan, exactly: matched and untouched, or one counted attempt between examinations and its readback |
| PrepareExecutor.AttachOneFile | src/ejs/services/smartrecruiters_executor.py:218-262 | One file, exactly: attached before, or one counted attempt between examinations, and its readback |
| PrepareExecutor.Preflight | src/ejs/services/smartrecruiters_executor.py:96-194 | The fence is shut for filling exactly after page, fingerprint, resolutions and every plan passed, with nothing attempted |
| PrepareExecutor.FinalReview | src/ejs/services/smartrecruiters_executor.py:264-310 | Completes exactly between two passed examinations, and reports the final form and the SUBMIT-1 validation of exactly that form |
| PrepareExecutor.PrepareInSession | src/ejs/services/smartrecruiters_executor.py:87-347 | A ready result is proposed exactly when the whole plan passed the preflight, every field and file was done, the final review passed and its validation certifies the form; reported attempts are the session's, and balance with the results up to one |
| PrepareExecutor.Prepare | src/ejs/services/fenced_application_session.py:221-272 | The outcome is ready exactly when the session may prepare, the executor proposes and the session confirms; a ready outcome has the executor's whole proposal behind it |
| PrepareExecutor.ProposalTold | src/ejs/services/smartrecruiters_executor.py:307-347 | A result built from complete loops and a truthful review is accounted for, and ready only on all of it |
| PrepareExecutor.EveryFittingPlanIsProposed | src/ejs/services/smartrecruiters_executor.py:87-347 | Any request whose plans fit the form and whose validation certifies it is proposed as ready on a page that holds the planned values |
| PrepareExecutor.WritableIff | src/ejs/services/prefill_writer.py:16-43 | The plan check is exactly the allowlists and the gates: the list of forbidden fields forbids nothing more |
| PrepareExecutor.PreflightedIff | src/ejs/services/smartrecruiters_executor.py:96-164 | What the preflight asks of page and plan: no obstacle, the reviewed form, writable fields only, an answer to every required control, and for every plan the control its key means, fit for it |
| PrepareExecutor.FieldFitsIff | src/ejs/services/smartrecruiters_executor.py:127-160 | A field plan fits exactly a usable, addressable control of its type with room for the value and, in a select, with the option |
| PrepareExecutor.FileFitsIff | src/ejs/services/smartrecruiters_executor.py:127-164 | A file plan fits exactly a usable, addressable file control that accepts the asset |
| PrepareExecutor.NamedIff | src/ejs/services/smartrecruiters_executor.py:127-135 | A control key means the last control of the page that has it |
| PrepareExecutor.MatchesIff | src/ejs/services/file_uploader.py:368-375 | A file readback matches exactly by name, size, type and a given digest, in either case of letters |
| SubmitPolicy.EligibleIff | src/ejs/services/submit_policy.py:102-209 | No blocker exactly when the request is clear and no control breaks a rule |
| SubmitPolicy.EligibleByRules | src/ejs/services/submit_policy.py:36-99 | No blocker exactly when the request meets its conditions and every control meets the approved rules, each stated over the control's own entries: mapping, work rights, salary, privacy, marketing, demographics, narratives, documents, provenance |
| SubmitPolicy.ValidationByRules | src/ejs/services/submit_policy.py:102-209 | Every decision and flag of a validation as an if-and-only-if over those rules, the stage and the authority |
| SubmitPolicy.RefusedIff | src/ejs/services/submit_policy.py:102-125 | The three refusals, exactly, in their order |
| SubmitPolicy.ValidationKeys | src/ejs/services/submit_policy.py:126-146 | The two keys are those of their three parts when the parts are given, and a duplicate is a known submit key |
| SubmitPolicy.ValidationCounts | src/ejs/services/submit_policy.py:147-175 | The counts are cardinalities of positions, and the completeness flags say what they name, by the rules |
| SubmitPolicy.ReportedBlockersAreReal | src/ejs/services/submit_policy.py:36-200 | Every reported blocker names something that is so: a broken rule of a control with that caption, or a condition the request misses |
| SubmitPolicy.EligibleIsComplete | src/ejs/services/submit_policy.py:102-209 | Eligibility implies resolved count equals required count, complete provenance, ready artifacts and a submit key |
| SubmitPolicy.ValidationIsUnordered | src/ejs/services/submit_policy.py:147-209 | Decision, keys and counts do not depend on the order of the controls |
| SubmitPolicy.MoreNeverHelps | src/ejs/services/submit_policy.py:102-209 | More controls or known submit keys never make an ineligible request eligible |
| SubmitPolicy.DeduplicatedIsFaithful | src/ejs/services/submit_policy.py:187-200 | The reported blockers are duplicate-free, keep the order of first occurrence, and lose none |
| SubmitPolicy.ReviewControls | src/ejs/services/submit_policy.py:147-175 | The one pass over the controls computes blockers, both counts and both completeness flags as specified |
| SubmitPolicy.ValidatePreSubmit | src/ejs/services/submit_policy.py:102-209 | The accumulating validator, its refusals included, equals the specification that `ValidationByRules`, `ValidationKeys`, `ValidationCounts` and `RefusedIff` determine |
| AppliedReconciliation.RecordedIsReconcilable | src/ejs/services/submit_policy.py:235-268 | With a collision-free hash, whatever the ledger records as a confirmation of an attempt may also be reconciled to Applied, with the evidence the ledger stores |
| AppliedReconciliation.MarkingIsRefusedIff | src/ejs/services/submit_policy.py:235-268 | A confirmation is refused exactly for an unsubmitted attempt, a submit key, execution or requisition that differs, an inexact identity or a blank reference; otherwise only status and reference change |
| AppliedReconciliation.ReconcilableIsRecordedIff | src/ejs/services/submit_policy.py:235-268 | With a collision-free hash, what may be reconciled for a started row is recorded exactly when both ids are given, the reference is a digest, and the observation lies between the start and a readable clock |
| AppliedReconciliation.ReconcilableIsReaffirmedIff | src/ejs/persistence/submission_ledger.py:257-279 | For a confirmed row the ledger affirms it exactly when, besides, evidence and observation time are the stored ones |
| AppliedReconciliation.ReconcilableMayBeUnrecorded | src/ejs/services/submit_policy.py:235-257 | A witness of the failing side: evidence without an execution id may be reconciled, and the ledger never records it |
| SubmitRollout.DailyCapHolds | src/ejs/contracts/submit.py:44-51 | For any sequence of requests at a fixed stage the grants are at most the daily cap, with distinct submit keys, all new |
| SubmitRollout.EligibleIsGranted | src/ejs/services/submit_policy.py:212-232 | A request is decided eligible exactly when it is granted a new attempt, which carries its identities and keys and disturbs no other |
| SubmitRollout.RunDay | src/ejs/persistence/submit_memory.py:9-41 | The day as it runs against the registry object equals the specification and stays within the cap |
| SubmitRollout.InMemorySubmitRepository.ReserveAttempt | src/ejs/persistence/submit_memory.py:18-38 | Stores exactly a new attempt, accepts exactly the identical one, refuses a different one under the same key |
| ReviewedInputs.AcceptedFieldIsClear | src/ejs/services/single_application_inputs.py:193-253 | A field the loader accepts compiles to a control without a SUBMIT-1 problem exactly when it is not an uncovered privacy box |
| ReviewedInputs.AnUncoveredBoxIsAccepted | src/ejs/services/single_application_inputs.py:193-253 | An accepted field that is an uncovered privacy box: required, reviewed as False and declared as a verified fact |
| ReviewedInputs.CollectedFactsOk | src/ejs/services/single_application_inputs.py:172-190 | The facts collected from accepted entries meet what the field checks rely on |
| ReviewedInputs.AcceptedManifestIsClear | src/ejs/services/single_application_runtime.py:154-168 | A manifest loaded with its listed facts compiles to controls without any field blocker exactly when it has no uncovered privacy box |
| ReviewedInputs.AcceptedManifestEligibility | src/ejs/services/submit_policy.py:36-99 | For the request compiled from a loaded manifest, eligibility is exactly a clear request and no uncovered privacy box |
| ReviewedInputs.CompiledKeysAreDistinct | src/ejs/services/single_application_runtime.py:154-168 | The compiled control keys of an accepted manifest are pairwise distinct |
| ReviewedInputs.LoadSteps | src/ejs/services/single_application_inputs.py:334-363 | The loading loop with its growing key and selector sets accepts exactly the manifests that the specification accepts |
| ReviewedInputs.ValidateFacts | src/ejs/services/single_application_inputs.py:172-190 | The loop over the facts accepts exactly lists of valid facts without repetition, and returns them by name |
| ReviewedInputs.CollectedIsFaithful | src/ejs/services/single_application_inputs.py:172-190 | Without repetition the collected facts are exactly the listed ones |
| ReviewedInputs.LoadedValuesAreVerified | src/ejs/services/single_application_inputs.py:172-253 | Every field of a loaded manifest has value and source of an entry of the facts for its own canonical field, which is verified, approved, recent and, where the subject demands it, an explicit decision |
| ReviewedInputs.FactEntryOkIff | src/ejs/services/single_application_inputs.py:172-190 | A fact is accepted exactly when it is verified, approved, at most thirty days old, with an explicit source where its subject demands one, for a known field and with a value of a permitted shape |
| ReviewedInputs.EntriesOkIff | src/ejs/services/single_application_inputs.py:172-190 | The facts are accepted exactly when every entry is and no canonical field occurs twice |
| ReviewedInputs.ResolutionsCarry | src/ejs/services/single_application_runtime.py:154-168 | Every compiled control carries key, need, source and policy of its field as an explicit fact, and the approved CV follows as one required artifact |
| ReviewedInputs.FieldOkIff | src/ejs/services/single_application_inputs.py:193-253 | A field is accepted exactly on well-formed entries, a fact of the same value and source, a value of its kind, and an allowed mode |
| ReviewedInputs.ModeOkIff | src/ejs/services/single_application_inputs.py:214-253 | The rules, applied one after another, allow exactly the listed combinations of subject, mode, kind, value and policy |
| ReviewedInputs.ManifestOkIff | src/ejs/services/single_application_inputs.py:334-363 | The loading loop accepts exactly one to five pages of accepted fields with selectors of their own, one upload in all, and no key used twice anywhere |
| ReviewedInputs.PrivacyPolicyIff | src/ejs/services/single_application_inputs.py:193-253 | A privacy reference is exactly a user, a name, the word and a date of eight digits |
| Identity.KeyPartNormalises | src/ejs/contracts/submit.py:10-13 | Key normalisation is idempotent and never emits a colon |
| Identity.KeyPartIsExact | src/ejs/contracts/submit.py:10-13 | Two texts get the same key part exactly when they have the same words, that is unbroken runs of letters and digits in small letters; a text without any counts as "unknown" |
| Identity.KeyPartJoinsWords | src/ejs/contracts/submit.py:10-13 | A key part is exactly the words of its text with single dashes between them |
| Identity.StripIsExact | src/ejs/contracts/submit.py:10-13 | Stripping takes white space off both ends and nothing else |
| Identity.IdentitiesSpellWords | src/ejs/contracts/submit.py:16-32 | Submit and validation identities are given exactly for three visible parts, whose words follow the prefix |
| Identity.SubmitIdentityIsExact | src/ejs/contracts/submit.py:16-26 | Two submit identities are equal exactly when their three normalised parts are |
| TmhRepository.ExecutionIdentityIsExact | src/ejs/contracts/tmh.py:46-51 | Execution identities are equal exactly when normalised parts and attempt number are |
| TmhRepository.ExecutionEventKeyIsExact | src/ejs/contracts/tmh.py:54-59 | Event keys are equal exactly when execution id, sequence and normalised type are, even if the id contains colons |
| TmhRepository.ArtifactKeyIsExact | src/ejs/contracts/tmh.py:62-65 | Artifact keys are equal exactly when execution id, normalised type and normalised version or hash are |
| TmhRepository.KeysAreGivenIff | src/ejs/contracts/tmh.py:46-65 | A key is given exactly for visible parts and a count from one on |
| TmhRepository.LogStaysInStep | src/ejs/persistence/tmh_memory.py:24-54 | Over any appends the order list is duplicate-free, has the dictionary's keys, and lists the accepted events as they came |
| TmhRepository.AppendIsDecidedByPlace | src/ejs/persistence/tmh_memory.py:24-54 | Appended, unchanged or collision, told exactly by the accepted events without mentioning keys |
| TmhRepository.InMemoryTmhRepository.AppendExecutionEvent | src/ejs/persistence/tmh_memory.py:49-54 | Dictionary and list move together as one append of the history |
| TmhRepository.InMemoryTmhRepository.EventsForExecution | src/ejs/persistence/tmh_memory.py:61-66 | Returns the accepted events of the execution in order of arrival; the lookup never misses |
| ShadowReports.RebaseIsExact | src/ejs/services/smartrecruiters_live_inspector.py:313-318 | Two paths meet after rebasing exactly when scope and relative path agree, for all frame indices |
| ShadowReports.UnprefixedKeysCanMeet | src/ejs/services/smartrecruiters_live_inspector.py:313-318 | Without the document prefix two different keys under one scope become equal |
| ShadowReports.KeysStayDistinct | src/ejs/services/smartrecruiters_live_inspector.py:321-343 | Reports with unique document keys under distinct scopes keep all keys globally unique |
| ShadowReports.CombiningNeverCollides | src/ejs/services/smartrecruiters_live_inspector.py:337-343 | Combining such reports never raises a duplicate identity and keeps the total number of controls |
| ShadowReports.CombiningIsAssociative | src/ejs/services/smartrecruiters_live_inspector.py:337-343 | Combining in two stages gives the report of combining at once |
| ShadowReports.CollisionsAreTheSharedGroups | src/ejs/services/smartrecruiters_shadow.py:92-98 | The collisions are exactly the locator groups of two or more |
| ShadowReports.CollisionIff | src/ejs/services/smartrecruiters_shadow.py:92-98 | A control is listed in a collision exactly when another control has its locator |
| ShadowReports.LocatorIs | src/ejs/services/smartrecruiters_shadow.py:75-106 | A control is addressed by its id, and by its name only for want of one |
| ShadowReports.SummaryReads | src/ejs/services/smartrecruiters_shadow.py:75-106 | File keys are exactly the keys of file controls, and a next button is seen exactly when a visible one reads next, continue or proceed |
| ShadowReports.GroupLocators | src/ejs/services/smartrecruiters_shadow.py:92-98 | The dictionary filled in a loop yields the groups of two or more in order of first appearance |
| ShadowReports.SummarizeShadowForm | src/ejs/services/smartrecruiters_shadow.py:75-106 | Rejects empty keys and duplicates, otherwise reports form, fingerprint, collisions, file keys and whether a next button was seen as specified |
| ShadowReports.ScopeShadowReport | src/ejs/services/smartrecruiters_live_inspector.py:321-334 | Moves scope and key of every control and action, in order |
| ShadowReports.CombineShadowReports | src/ejs/services/smartrecruiters_live_inspector.py:337-343 | Joins all controls and actions in order and summarises them |
| RenderWait.WaitForRenderStructure | src/ejs/services/smartrecruiters_live_inspector.py:389-446 | Ends at the first observation inside the budget that shows a form or stands still, and reports exhaustion exactly when the budget is used up |
| RenderWait.ConclusionsAre | src/ejs/services/smartrecruiters_live_inspector.py:389-446 | A form counts from the second observation on, stillness from the seventh or the last, after three complete rounds with one signature |
| Workdays.Workday | src/ejs/services/user_action_projection.py:185-192 | The loop ends, on the work day with exactly the requested number of work days after the start, equal to the closed form |
| Workdays.WorkdayIsUnique | src/ejs/services/user_action_projection.py:185-192 | Only one work day has a given number of work days behind it |
| Workdays.ClosedFormCounts | src/ejs/services/user_action_projection.py:185-192 | The div and mod five expression is a work day with exactly that many work days after the start |
| ExecutionRequest.DecodeEncode | src/ejs/contracts/github_executor.py:107-144 | Every request with an object payload survives encoding and decoding unchanged |
| ExecutionRequest.SignedIsAcceptedIff | src/ejs/contracts/github_executor.py:147-222 | A signed request is accepted unchanged exactly from thirty seconds before creation to expiry, given the operation, ids and source that verification insists on; signing succeeds exactly within its own bounds |
| ExecutionRequest.VerifiedIff | src/ejs/contracts/github_executor.py:183-222 | Every dictionary is accepted exactly as what it decodes to, if that has the version, ids, operation, environment, source and read-only flags of the contract, a payload under its hash, a lifetime of 1 to 300 seconds around the clock, and the right signature |
| ExecutionRequest.TruthyIff | src/ejs/contracts/github_executor.py:107-144 | In decoding, exactly the six empty values count as absent or false |
| ExecutionRequest.AcceptanceIsShortLived | src/ejs/contracts/github_executor.py:205-216 | No dictionary is accepted at two times more than 330 seconds apart |
| ExecutionRequest.AcceptedIsWhatWasSigned | src/ejs/contracts/github_executor.py:147-222 | With a collision-free MAC and encoding, a signature is accepted only on the very request it was made for |

## Left out

- Playwright, the injected extractors and DOM label logic: the browser and the page are arbitrary answers and network events here.
- SQLite, PRAGMAs, fsync, file modes, symbolic links and inodes: a transaction is atomic and may fail before its commit or after it; an exclusive link is atomic.
- SHA-256, HMAC (section 2 of RFC 2104), JSON text, URL parsing, Unicode beyond ASCII, and the regular expressions for profile fields and numerals are parameters or already parsed values.
- The MW-5 fingerprint is an injective image of the five stripped fields; the real one joins them with a bar and truncates a hash, so it needs fields without the bar.
- Executions of guarded mutations are atomic with respect to each other: two executors interleaving inside one call are not modelled, so pipeline history is not claimed unique there.
- MutationRepository.InMemoryMutationRepository.FailIfArmed: a set of armed boundaries generalises the single one-shot failure of the original.
- OutcomePublish.WriteAll: only this loop works on a file object; the rest of the publication is a state machine over its steps, because its point is the interleaving of publishers. Temporary names are taken to be fresh: the cleanup of a publisher whose random name collided would remove another one's file. Somebody else deleting or replacing the target is outside the model.
- ApplicationRuntime.SingleApplicationRuntime.Execute: what the checks of the posting and of the CV's approval found enters as two verdicts; they happen before the form and can only block. Opening the entry page up to the first control is one browser call. Other clients act before the call here and at every step in `SubmissionProtocol`. The job's identities and the SUBMIT-1 request are separate inputs.
- FencedSession.FencedApplicationSession.CheckSurface: a failed check is one answer, without the code that names its reason; the same holds for all error codes and message texts of session and executor.
- PrepareExecutor.PrepareInSession: the boundary and error states are one state; whether the artifact repository stored a new artifact is an answer of the environment; the request's own field checks and the asset check enter as their verdicts.
- ReviewedInputs.LoadSteps: step URLs, fingerprints, buttons, profile assertions and the CV record are not modelled; an explicit null policy reference is taken as absent.
- NetworkBoundary.OneClickNetworkBoundary.constructor: the shape checks of the target and of the reviewed read URLs are not modelled.
- TmhRepository: templates, mappings, canonical fields and the artifact dictionary use the same immutable insertion and are not repeated.
- Workdays.Workday: the calendar's last date and date parsing are not modelled.
- The projection, sorting and parity reports of user actions, the ADP canaries, the control plane behind the GitHub queue, authority records, routing tables, the CLI and the web application: their claims are settled by reading one branch, or the other side is not shown.
