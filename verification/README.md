# Orchestune protocols and tools, in Dafny

Orchestune runs coding tasks against GitHub Issues. Two of its parts must survive a crash at
any moment: publishing the completion of a task, and claiming a task in a shared ledger. A
number of smaller tools rest on algorithms with a simple specification. This project models
both protocols and those algorithms, and proves what they promise.

`dafny verify dfyconfig.toml` covers the whole project.

## What is modelled

**Completion publication** (`Completion*.dfy`, `OutcomePosting.dfy`, `LabelReconciliation.dfy`, `StatusLabels.dfy`).
`CompletionRuns` is a step machine over the saved ledger (journal, Issue reservations, replay
receipts, mirrored active entries) and the Issue comments, with an inductive invariant. A crash
needs no step of its own: the snapshots between steps are what a crash leaves behind, and a run
may be any interleaving of any number of attempts. `CompletionWorld.World` is the outside world as
an object: a save is atomic but may report failure after it happened, a POST may be rejected, be
applied, or be applied with a lost response, label writes may silently fail, and other people may
edit comments and labels between any two calls. Its log is a run of the step machine, so each
imperative procedure (`ReserveCompletion`, `PostIssueOutcome`, `TransitionCompletionStatusLabel`,
`PublishReserved`, `PublishRequest`, `CompleteUnclaimed`) is shown to take only steps of the protocol.
`calm` switches interference off; success is then guaranteed under stated conditions.

**Claims** (`ClaimOwnership`, `ClaimLedger`, `ClaimService`, `FootprintPaths`, `WorktreeTakeover`).
The exclusion rule, the ledger as a step machine whose steps are claim, finalise, resume,
rollback, amend and release, and the procedures over it, with failing saves, worktrees and labels.
Takeovers of retained worktrees are a second step machine over receipts, active entries, worktree
markers and the launches of workers.

**Algorithms** (`BloatBaseline`, `LogTail`, `OutcomeHistory`, `BranchNaming`, `BranchResolution`,
`MarkerBlocks`, `MarkerPattern`, `MarkerHealing`, `PlanScanners`, `PlanLines`, `PlanFlow`, `PlanBlocks`,
`PlanRegions`, `PlanBounds`, `PlanWriter`, `PlanUpdates`, `PlanItems`, `PlanPatterns`, `PlanFile`,
`PlanExample`). Code that loops or assigns in place is a method with loop invariants, proved equal to a
function; the promises are lemmas about that function.

## Assumptions

- `save_run_state` replaces the ledger atomically; the run-state lock is exclusive, so the body of
  one locked section sees nobody else's ledger writes, while remote state may change at any time.
- A full comment listing is complete and sees every applied POST; a POST is applied at the call or
  never. Comments that carry a completion id are not added, edited or deleted by others.
- A request fingerprint stands for one intent: Issue, verdict, pull request and notes. Two requests with
  equal digests ask for the same.
- New claim ids are unused. The completion id drawn by the unclaimed path is unused for the
  clause about distinct ids.
- Composite string keys of the ledger are structured values; repository identities are compared
  by equality.
- Codecs are parameters with stated laws: rendering an outcome and parsing it back; the YAML list
  of launch times (a written list decodes to itself, is whole lines and holds neither a fence nor the
  marker, and a text whose last line is a stray marker decodes to no times); and the byte decoder of
  a log (which must decode each side of a newline on its own).
- The YAML decoder of plan entries decodes a whole flow mapping. Its laws: complete entries joined by
  commas decode to their union with later keys winning, one comma may follow the last entry, nothing
  but spaces between two commas is an error, and `issue_number: n` reads as the number n.
- Launch times are whole ticks of any resolution; only their order and the window's bounds matter.
- The view of other tasks used by the exclusion rule is a function during one assessment; the theorem
  about shared contracts asks for the same view all along a run.
- Preflight, evidence, CI and environment results are parameters or arbitrary choices.
- Garbage collection releases only claims saved as active; an Issue has at most one worktree marker.
- The ledger a run starts from has canonical footprints, as loading makes them, and a claimed task has
  a parsed footprint, which is canonical (`FootprintPaths.ParsedIsCanonical`).

## Findings

Where the code does not keep a promise, a lemma gives the exact condition or a concrete input.

- `CompletionService.SharedIdEndsReplay`: the claimed path refuses an explicit completion id only
  when a *receipt* already has it. An id that is still open on one Issue can be reserved, posted and
  finished on another, and every later replay of it is refused as ambiguous;
  `CompletionExample.SharedIdHappens` is such a run from an empty ledger.
  `CompletionReplay.ReserveKeepsDistinctIff` says when ids stay distinct.
- `CompletionJournal.AdvanceKeepsMirrorsIff`: the journal-only updates (`record_posting_evidence`,
  `record_label_confirmation`, the contract form of `mark_handoff_ready`) leave a mirrored active entry
  behind exactly when one mirrors that record; the publication's own saves do not.
- `ClaimOwnership.AsymmetryIff` and `ClaimLedger.ForcedSerialMayGrow`: the forced-serial rule is read
  on the held side only, so a forced-serial claim may amend itself into an overlap.
- `FootprintPaths.NormalizeIsNotIdempotent`: `./C:x` normalises to `C:x`, which is refused. So a changed
  file of that shape makes the retry of a half-finished amend fail (`AmendRetryIff`,
  `DriveLikeFileBreaksRetry`).
- `MarkerHealing.OpenFenceSwallowsAppend`: a block appended behind a header that was never closed is
  taken into that header, and nothing of the history reads back. `MarkerHealing.JoinedProseMakesBlock`:
  removing a block may join the prose on its sides into a new block. `BackfillReadsBackIff` is the exact
  condition on the body for both, `HealsToOneIff` the one for a single block.
- `WorktreeTakeover.SupersededCrashIsStuck`: a claim that replaces a merely prepared takeover and crashes
  before it moves the marker is refused on every resume, and so is everybody else; the code leaves this to
  a manual review. `GoesOnIff` and `ResumeTakeover` say exactly which interrupted takeovers can be resumed.
- `BranchNaming.LeadingZeroMatches`: a name with a leading zero belongs to the Issue although no
  build yields it.
- `PlanLines.EmptyValueSplits` and `PlanLines.CommentIsGlued`: an existing `issue_number:` with no value
  loses its number to the next line, and a comment in place of a value is glued to the number.
  `RewrittenReadsBackIff` is the exact condition.
- `PlanFlow.TrailingCommaBreaks`: `- {id: a, }` is a valid item and is rewritten to
  `- {id: a, , issue_number: 7}`, which no longer decodes. `FlowWriteReads` says exactly which flow items
  survive: a number that is replaced must be the last one of its mapping, and an appended one must not
  follow a trailing comma.
- `PlanExample.NumberFirstIsBroken`: an item whose first field is its `issue_number` is found and then
  fails the internal assertion. `PlanUpdates.WriteFailsIff` says exactly when a write ends in either error.
- `PlanExample.CommentHidesFields`: a comment in another column between a bare dash and the first field of
  its item gives the item its column, and the subtask is no longer found. `PlanItems.IdleLineInPlan` shows
  that every other blank or comment line changes nothing.
- `PlanExample.TwoWordsAreDoubled`: a parent field with a value of two words is not recognised and gets
  a second line with the same key; `PlanUpdates.FieldDoubledIff` is the exact condition.

## Model

| member | source | states |
|---|---|---|
| CompletionRuns.StepKeepsInv | orchestune/complete/publication.py:49-71 | every ledger save, POST, foreign edit and active change keeps the invariant: one record per Issue and generation, at most one open record, evidence and receipts in step with the stage, mirrors that repeat their record, unique comment ids, past-reserved records backed by the frozen comment |
| CompletionRuns.RunKeepsInv | orchestune/complete/journal.py:545-577 | the invariant holds at every point of every run, so after a crash between any two steps |
| CompletionRuns.ExactlyOneComment | orchestune/complete/posting.py:68-151 | at every point of every run no Issue holds two comments with one completion id, and a record past reserved has exactly one, with the body frozen at reservation |
| CompletionRuns.AtMostOneOpen | orchestune/complete/journal.py:392-425 | at most one completion of an Issue lacks its receipt |
| CompletionRuns.StepProgresses | orchestune/ownership_contracts.py:139-157 | one step never regresses a stage, never changes an identity, writes posting evidence once, and gives a finished record only policies; receipts stay |
| CompletionRuns.RunProgresses | orchestune/ownership_contracts.py:139-157 | the same between any two points of a run |
| CompletionRuns.ConfirmedByStep | orchestune/complete/journal.py:822-866 | only a save of labels settled for the target of the record confirms it |
| CompletionRuns.HandedOffOnlyWhenSettled | orchestune/complete/publication.py:96-119 | at every point of every run a record past confirmation carries a settled observation, and one that this run confirmed or handed off was confirmed in it by a save of settled labels |
| CompletionWorld.World.Save | orchestune/complete/journal.py:186-193 | a save applies whole or not at all, may report failure after applying, and is logged as one protocol step |
| CompletionWorld.World.CreateComment | orchestune/complete/posting.py:107-116 | a POST adds at most one comment with that body, and an answer is that comment |
| LabelReconciliation.Observe | orchestune/complete/status_labels.py:43-64 | labels are returned only as observed, with a current generation and nothing protected; no write happens |
| LabelReconciliation.Mutate | orchestune/complete/status_labels.py:67-90 | exactly one write, then a read-back; only the read-back counts |
| LabelReconciliation.Verify | orchestune/complete/status_labels.py:169-184 | confirmation means the last observation was settled and the generation current |
| LabelReconciliation.RemoveStale | orchestune/complete/status_labels.py:138-165 | looks again before it removes one label of an open task, reads back, and in a calm world leaves exactly the other labels |
| LabelReconciliation.Cleanup | orchestune/complete/status_labels.py:130-166 | removes only primary labels other than the target, each at most once and only right after seeing it together with the target; adds nothing |
| LabelReconciliation.TransitionCompletionStatusLabel | orchestune/complete/status_labels.py:93-127 | the whole reconciliation: the target is added at most once and only after it was seen missing with nothing protected, removals are justified, a confirmation rests on the last observation, a failed addition or clean-up on one that shows it, an unknown target is refused untouched, and without interference it ends confirmed, or in conflict with the labels untouched |
| LabelReconciliation.AppendRemoval | orchestune/complete/status_labels.py:138-165 | one more removal keeps a log careful exactly in the situation the loop establishes |
| StatusLabels.ProtectedIff | orchestune/complete/status_labels.py:43-64 | nothing is protected exactly when every status label is one of an open task, force-serial or the label of the verdict, each by name |
| StatusLabels.SettledIff | orchestune/complete/status_labels.py:169-184 | settled labels are exactly those that show the verdict and no other, no open task, and nothing protected |
| OutcomePosting.MakeRequest | orchestune/complete/posting.py:37-49 | a request is accepted exactly when the Issue agrees and a completion id is present |
| OutcomePosting.FindExisting | orchestune/complete/posting.py:68-104 | a found posting is a comment with the requested body; nothing found means no comment carries the id; a conflict means one carries it with another body, and an unclear answer in a calm world one without evidence |
| OutcomePosting.PostIssueOutcome | orchestune/complete/posting.py:119-151 | at most one POST of the frozen body; success means that comment is there; failure to post means no comment carries the id; only a blocking comment stops a calm call |
| CompletionJournal.IdentityMismatch | orchestune/complete/journal.py:428-454 | no mismatch is reported exactly when all identity fields agree |
| CompletionJournal.ReservationMismatch | orchestune/complete/journal.py:467-498 | the same for the Issue reservation |
| CompletionJournal.ScanJournal | orchestune/complete/journal.py:392-425 | a reported reason is the objection of some record; silence means no record objects |
| CompletionJournal.NoObjectionIffAdmissible | orchestune/complete/journal.py:392-425 | no record objects exactly when every other completion of the Issue is finished, in the same repository and of another generation |
| CompletionJournal.ReplacementFollowsAdmission | orchestune/complete/journal.py:501-542 | the reservation of the Issue may be replaced exactly when its completion is durable, which it is for every admitted candidate |
| CompletionJournal.ReserveCompletion | orchestune/complete/journal.py:545-577 | accepts exactly what can be resumed or is admissible, writes one reservation or nothing, and a refusal leaves the ledger untouched unless its save was unclear |
| CompletionJournal.UpdateKeepsLedger | orchestune/complete/journal.py:785-900 | posting evidence, label confirmation by a settled observation and handoff updates keep the ledger invariant and touch one record |
| CompletionJournal.UpdateAppliesIff | orchestune/complete/journal.py:751-900 | an update changes the ledger exactly when the record is the candidate's and stands at the stage before it; an accepted update has its evidence or receipt stored |
| CompletionJournal.UpdateAcceptedIff | orchestune/complete/journal.py:751-900 | an update is accepted exactly for the completion the Issue is reserved for, at the stage before it or again with the same evidence |
| CompletionJournal.AdvanceKeepsMirrorsIff | orchestune/complete/journal.py:785-900 | such an update keeps the active mirrors exact if and only if no active entry mirrors the record |
| CompletionPublication.SaveKeepsGeneration | orchestune/complete/publication.py:49-93 | a save under a matching generation is never refused, stores the record, writes the receipt in the same save at handoff, and keeps the generation |
| CompletionPublication.SavePublication | orchestune/complete/publication.py:49-71 | success is exactly one logged save of that record; failure leaves the old ledger or the new one |
| CompletionPublication.PostReserved | orchestune/complete/publication.py:170-197 | moves a reserved record to posted with its evidence, without any handoff, and posts only after the labels showed nothing protected; always succeeds when nothing protected and no blocking comment is in the way |
| CompletionPublication.ConfirmLabels | orchestune/complete/publication.py:96-119 | confirmation saves exactly the labels just observed, and they are settled |
| CompletionPublication.HandOff | orchestune/complete/publication.py:201-203 | one save that sets the last stage and the equal receipt together |
| CompletionPublication.PublishReserved | orchestune/complete/publication.py:158-204 | may be entered at any stage and repeated; success means handed off with an equal receipt; a handoff occurs only in a call that itself just saw settled labels, a POST only after labels with nothing protected; a changed generation, claim, owner or repository writes nothing; a calm unobstructed call succeeds |
| CompletionPublication.UpdateDownstreamPolicy | orchestune/complete/publication.py:207-228 | one policy is inserted or overwritten, the receipt follows its record, every other record and all identities stay |
| CompletionReplay.ReplayByIdIff | orchestune/complete/replay.py:42-87 | a repeated request answers with the saved result exactly while no other receipt has its id; otherwise the history is ambiguous |
| CompletionReplay.ReplayIsStable | orchestune/complete/replay.py:42-121 | between any two points of a run the answer is equal as long as the id stays alone |
| CompletionReplay.ReplayByClaimIff | orchestune/complete/replay.py:90-121 | without an id, the claim's own result is given exactly when it is no unclaimed history and no other claim is active |
| CompletionReplay.AnonymousReplayNeverAnswers | orchestune/complete/replay.py:90-121 | with neither id nor claim nothing is ever replayed |
| CompletionReplay.ReplayAnswersIff | orchestune/complete/replay.py:42-87 | a saved answer is given exactly to a request that repeats the one receipt it concerns, nothing exactly when it concerns none, and every other request is refused |
| CompletionReplay.SoleReceipt | orchestune/complete/replay.py:66-121 | why a request that concerns one receipt is refused: another repository or Issue, another fingerprint, or a generation the caller does not stand for |
| CompletionReplay.AnsweredAsAsked | orchestune/complete/replay.py:21-39 | an answer has the Issue, verdict, pull request and notes that the request asks for |
| CompletionReplay.ReserveKeepsDistinctIff | orchestune/complete/journal.py:545-577 | a reservation keeps completion ids distinct exactly when its id was unused |
| CompletionReplay.FreshRunKeepsDistinct | orchestune/complete/service.py:672-703 | a run whose reservations use unused ids keeps all ids distinct |
| CompletionReplay.FreshIdsReplayForever | orchestune/complete/replay.py:21-87 | on such runs a handed-off completion answers every repeated request with one and the same result for ever, through later claims, generations and policies |
| CompletionService.NewRecord | orchestune/complete/service.py:346-392 | a new record is well formed and keyed by the active claim, stores the verdict, HEAD and policy decision it was asked for, and its frozen body parses to exactly the outcome of the request; it exists exactly when the head is validated |
| CompletionService.PendingIs | orchestune/complete/service.py:232-274 | in a reachable ledger a generation has exactly one journal record |
| CompletionService.PendingIsOpen | orchestune/complete/service.py:232-274 | after a replay found nothing, the pending record is not handed off |
| CompletionService.StoreRetriedPolicy | orchestune/complete/service.py:593-610 | a known decision is kept and an unknown one replaced; only the journal changes |
| CompletionService.RejectPolicy | orchestune/complete/service.py:405-430 | passes exactly allowed records, and then writes nothing; an exceeded decision is saved |
| CompletionService.SelectRecord | orchestune/complete/service.py:613-654 | the selected record is stored, open, serves this request and head; an unfinished record of this claim that can be finished is the one selected |
| CompletionService.StartRecord | orchestune/complete/service.py:613-654 | a first attempt stores a new reserved record of this request on the checked HEAD and decision, and always succeeds in a calm world when every earlier completion of the Issue is finished |
| CompletionService.StoredAnswers | orchestune/complete/publication.py:158-204 | a stored record with the fingerprint of the request has its verdict and label and yields an answer to it |
| CompletionService.PublishRequest | orchestune/complete/service.py:672-703 | a request that concerns a saved completion is answered from it exactly when it repeats it, and otherwise refused, without a write; any answer says the verdict, pull request and notes that were asked for; every handoff follows labels that show the requested verdict and no other, on the checked HEAD, evidence and decision; every POST follows labels with no foreign status; a failed check writes nothing; a calm first attempt or retry finishes |
| CompletionService.UnclaimedPendingFindsOpen | orchestune/complete/unclaimed.py:107-164 | finds exactly the open completion of the Issue; finding none means every completion of the Issue is durable |
| CompletionService.NewUnclaimedRecord | orchestune/complete/unclaimed.py:178-214 | a new claim-less record is well formed and passes its own identity checks |
| CompletionService.CompleteUnclaimed | orchestune/complete/unclaimed.py:238-269 | the claim-less entry follows the same protocol with the same answers and justified handoffs, replays without writing, adds at most one record under a canonical id, carries on only a completion that is named, keeps completion ids distinct when the id it draws is unused, and finishes in a calm world |
| CompletionService.StartUnclaimed | orchestune/complete/unclaimed.py:238-269 | a first attempt reserves one record under the canonical id and its pseudo-claim, and always succeeds in a calm world when nothing of the Issue is open |
| CompletionService.CanonicalIff | orchestune/complete/unclaimed.py:51-60 | a canonical id is the prefix and 32 lower-case hex digits, and its pseudo-claim has the same digits |
| CompletionService.FinishedIdIsGuarded | orchestune/complete/replay.py:42-87 | an explicit id is free to be used exactly when no receipt has it |
| CompletionExample.EmptyLedgerInv | orchestune/complete/journal.py:357-361 | a run may start from an empty ledger |
| CompletionExample.SharedIdHappens | orchestune/complete/service.py:672-703 | a run of ten steps from an empty ledger that ends with both Issues finished and the first completion unanswerable for ever |
| CompletionService.SharedIdEndsReplay | orchestune/complete/service.py:672-703 | from any state with an open id shared by another Issue's candidate there is a run after which the first completion never replays again |
| ClaimOwnership.BuildReservation | orchestune/claim/ownership.py:120-131 | an empty footprint reserves the repository; a new reservation is unforced and at its first stage |
| ClaimOwnership.OverlapMeaning | orchestune/claim/ownership.py:170-180 | the shared paths are non-empty exactly when the footprints intersect, sorted and without repetition |
| ClaimOwnership.ConflictIffExcludes | orchestune/claim/ownership.py:217-255 | one active entry blocks a candidate exactly when it excludes it; otherwise the two are compatible both ways and the warning is their overlap |
| ClaimOwnership.ClashIff | orchestune/claim/ownership.py:145-155 | two tasks clash exactly when both are writers of one contract |
| ClaimOwnership.ReasonIs | orchestune/claim/ownership.py:217-255 | each reason is reported exactly under its condition on Issues, kinds, footprints, force-serial, owners and contracts |
| ClaimOwnership.AsymmetryIff | orchestune/claim/ownership.py:217-255 | exclusion differs between the two directions exactly for overlapping interactive claims of which one is forced serial |
| ClaimOwnership.AssessClaimConflicts | orchestune/claim/ownership.py:183-207 | no conflict exactly when nobody excludes the candidate; a conflict is the first excluder and the first reason that holds for it, with the warnings of those before it |
| ClaimOwnership.WarningIsOverlap | orchestune/claim/ownership.py:170-180 | a warning about an entry is exactly its non-empty overlap |
| ClaimOwnership.WarningsAreTheOverlaps | orchestune/claim/ownership.py:183-207 | the warnings of a scan are exactly those of the overlapping entries |
| ClaimLedger.RollbackUndoesClaim | orchestune/claim/service.py:131-154 | rolling back a new claim restores the very ledger it was made on |
| ClaimLedger.StepKeepsExclusive | orchestune/claim/service.py:845-888 | claim, finalise, resume, rollback, amend and release keep mutual exclusion |
| ClaimLedger.RunKeepsExclusive | orchestune/claim/service.py:613-678 | mutual exclusion holds at every point of every run |
| ClaimLedger.ReachableReservationsAreApart | orchestune/claim/ownership.py:183-255 | two reservations of a reachable ledger differ in Issue, neither takes the repository, and footprints are disjoint unless both are interactive |
| ClaimLedger.RunKeepsCanonical | orchestune/claim/ownership.py:193-196 | footprints stay canonical at every point of every run |
| ClaimLedger.StepKeepsContracts | orchestune/claim/service.py:845-888 | no operation lets two reservations be of tasks that write one contract |
| ClaimLedger.RunKeepsContracts | orchestune/claim/ownership.py:245-255 | as long as the tasks stay as they are, no ledger of a run holds two writers of one contract |
| ClaimLedger.StepContinuesClaims | orchestune/claim/service.py:480-505 | a claim found before and after a step is the same claim, at a stage not lower |
| ClaimLedger.StepKeepsDistinctClaims | orchestune/claim/service.py:560-593 | no two entries ever share a claim id |
| ClaimLedger.HeldClaimsContinue | orchestune/claim/service.py:940-990 | a claim held throughout part of a run keeps its identity and never falls back |
| ClaimLedger.ForcedSerialMayGrow | orchestune/claim/amend.py:200-240 | a concrete ledger in which a forced-serial claim amends itself into an overlap |
| ClaimService.PrepareAndPersist | orchestune/claim/service.py:298-348 | success saves the same claim as active with its worktree; a new claim is rolled back exactly when no worktree came to be and none is taken over; any other failure leaves the ledger, and with working storage a prepared worktree is always recorded |
| ClaimService.TransitionLabelsAndFinalize | orchestune/claim/service.py:430-505 | the claim is completed exactly when the Issue passes and the labels are written, up to a failing save; otherwise the ledger stays |
| ClaimService.ClaimNewReservation | orchestune/claim/service.py:845-888 | a claim is granted exactly when it is unblocked and everything outside goes well, up to failing saves, with exactly the overlap warnings, and adds one completed entry; a blocked one or a failed check touches nothing; a reliable rollback restores the ledger |
| ClaimService.ResumeClaim | orchestune/claim/service.py:1028-1062 | resumes exactly the entry of that claim to completion when Issue and repository agree, leaves a completed one untouched, refuses an unknown claim or another Issue without a write, and succeeds with working storage |
| ClaimService.FindHeld | orchestune/claim/amend.py:88-98 | finds an entry of the Issue whenever there is one |
| ClaimService.AmendFootprint | orchestune/claim/amend.py:412-459 | an amendment is accepted exactly for a completed footprint claim of its owner that no completion has begun on, with valid paths, that nobody else excludes; it changes only the footprint of the held entry, to the extension it reports; without apply or on refusal the ledger stays |
| FootprintPaths.SplitJoin | orchestune/footprint_paths.py:15-45 | splitting a joined path gives its parts |
| FootprintPaths.NormalizeMeaning | orchestune/footprint_paths.py:15-45 | a path is accepted exactly when it is relative, has no drive and its walk stays inside; the result is the path of the walk, with no empty, dot or parent component |
| FootprintPaths.EqualIffSamePlace | orchestune/footprint_paths.py:15-45 | two normalised paths are equal exactly when their walks end at the same place |
| FootprintPaths.NormalizeAgain | orchestune/footprint_paths.py:15-45 | normalising twice is the same or is refused, the latter exactly when the result looks like a drive |
| FootprintPaths.NormalizeIsNotIdempotent | orchestune/footprint_paths.py:15-45 | a concrete path whose normal form is refused |
| FootprintPaths.LenientIdempotent | orchestune/footprint_paths.py:83-97 | the lenient form is idempotent on every path |
| FootprintPaths.CanonicalizeFootprint | orchestune/footprint_paths.py:83-97 | the loop computes the deduplicated lenient forms in order |
| FootprintPaths.CanonicalFixedPoint | orchestune/footprint_paths.py:83-97 | results are canonical, exactly the canonical footprints are fixed, and the members are the lenient forms of the input |
| FootprintPaths.CanonicalizeIdempotent | orchestune/footprint_paths.py:83-97 | canonicalisation is idempotent on every input |
| FootprintPaths.ParseFootprintValue | orchestune/footprint_paths.py:52-80 | the loop accepts or reports the first bad item as specified |
| FootprintPaths.ParsedIsCanonical | orchestune/footprint_paths.py:52-80 | a parsed footprint is canonical |
| FootprintPaths.WrittenFootprintReadsBackIff | orchestune/claim/amend.py:243-268 | a canonical footprint written to the Issue reads back, and then as itself, exactly when every path is strictly valid |
| FootprintPaths.AmendExtendsHeld | orchestune/claim/amend.py:398-409 | an amend keeps the held footprint as an exact prefix, stays canonical, and adds exactly the new paths |
| FootprintPaths.AmendAgain | orchestune/claim/amend.py:398-409 | amending again from the written footprint changes nothing |
| FootprintPaths.AmendRetryIff | orchestune/claim/amend.py:364-459 | after a crash behind the Issue write, a retry succeeds exactly when every path involved stays strictly valid, and then ends in the same footprint |
| FootprintPaths.DriveLikeFileBreaksRetry | orchestune/claim/amend.py:364-459 | a concrete changed file whose retry is refused |
| WorktreeTakeover.StepKeepsInv | orchestune/claim/worktree_reclaim.py:112-189 | begin, stage, marker move, claim, launch, release and drop keep the takeover invariant |
| WorktreeTakeover.NothingYet | orchestune/claim/worktree_reclaim.py:63-109 | the invariant holds before anything was claimed |
| WorktreeTakeover.StepFollows | orchestune/claim/worktree_reclaim.py:151-189 | one step keeps a receipt's own claim, moves its takeover phase forward only, and keeps every replaced claim on record |
| WorktreeTakeover.TakeoversOnlyMoveForward | orchestune/claim/worktree_reclaim.py:151-189 | the same between any two points of a run: once active was saved for a claim, no other claim replaces it |
| WorktreeTakeover.ReplacedClaimsNeverLaunch | orchestune/claim/worktree_reclaim.py:291-306 | a claim once superseded is never launched, before or after |
| WorktreeTakeover.MarkersMoveSafely | orchestune/claim/worktree_reclaim.py:200-242 | a marker moves only to the active claim, from the released generation or from a superseded claim that merely prepared and never launched |
| WorktreeTakeover.AssessIff | orchestune/claim/worktree_reclaim.py:63-109 | a takeover is offered exactly when there is evidence and a receipt that may be taken over, and lists exactly its previous claims |
| WorktreeTakeover.MayTakeOverIff | orchestune/claim/worktree_reclaim.py:63-109 | in a reachable state a takeover may begin exactly when the marker is of the released generation and no other claim saved its takeover, or of a claim that merely prepared one |
| WorktreeTakeover.GoesOnIff | orchestune/claim/worktree_reclaim.py:63-109 | an interrupted takeover with a foreign marker may be begun again exactly when the marker is of the released generation |
| WorktreeTakeover.CrashLeaves | orchestune/claim/worktree_reclaim.py:112-136 | a crash behind the move of the marker can always be resumed, one behind the first save exactly when the takeover began at the marker of the released generation |
| WorktreeTakeover.SupersededCrashIsStuck | orchestune/claim/worktree_reclaim.py:112-136 | a concrete crash from which no claim can take the worktree over |
| WorktreeTakeover.TakeoverWorld.BeginWorktreeReclaim | orchestune/claim/worktree_reclaim.py:112-136 | records the prepared takeover on the assessed receipt and nothing without an assessment |
| WorktreeTakeover.TakeoverWorld.PrepareTaskWorktree | orchestune/claim/service.py:193-286 | the own marker is accepted as it stands, a missing one is created unless something is in the way, a foreign one is replaced exactly when it is among the previous claims and verified; a refusal leaves the markers |
| WorktreeTakeover.TakeoverWorld.RecordTakeoverStage | orchestune/claim/worktree_reclaim.py:144-189 | the loop stamps the phase on exactly the receipts prepared by this claim |
| WorktreeTakeover.TakeoverWorld.SaveStage | orchestune/claim/service.py:480-505 | the claim stage and the receipt phase advance in one save |
| WorktreeTakeover.TakeoverWorld.PrepareAndPersistWorktree | orchestune/claim/service.py:298-348 | with working storage it succeeds exactly when the worktree can be acquired; success leaves the marker on this claim, the claim saved as active and its takeover saved with it; a foreign worktree that may not be taken over leaves everything as it was |
| WorktreeTakeover.TakeoverWorld.ResumeTakeover | orchestune/claim/service.py:298-348 | a resume in the middle of a takeover succeeds exactly when the marker was not left behind on a replaced claim, and then saves the takeover as active on its receipt |
| BloatBaseline.MatchingBound | scripts/detect_bloat.py:357-391 | weak duality: no matching exceeds the reports below plus the baseline entries above any threshold per key |
| BloatBaseline.KeptIsTight | scripts/detect_bloat.py:357-391 | thresholds exist for which the number of unflagged reports meets that bound |
| BloatBaseline.ScanIsMatching | scripts/detect_bloat.py:357-391 | the unflagged reports are matched to same-key entries at least as large, each used once, and kept plus flagged are all reports |
| BloatBaseline.PreviousIsSmaller | scripts/detect_bloat.py:357-391 | the previous size shown with a regression is smaller than the report |
| BloatBaseline.RegressionsAreOptimal | scripts/detect_bloat.py:357-391 | the unflagged reports form a maximum matching |
| BloatBaseline.CleanIffCovered | scripts/detect_bloat.py:357-391 | the result is empty exactly when all reports can be matched |
| BloatBaseline.RegressionsInOrder | scripts/detect_bloat.py:371-391 | regressions are listed by category, path, symbol and size |
| Ordering.BelowIff | scripts/detect_bloat.py:371-375 | strings are compared by their first difference |
| BloatBaseline.OwnSnapshotIsClean | scripts/detect_bloat.py:318-391 | a report list compared with its own snapshot, in any order, is clean |
| BloatBaseline.GroupLines | scripts/detect_bloat.py:363-373 | the grouping loop collects and sorts the lines of every key |
| BloatBaseline.FindRegressions | scripts/detect_bloat.py:357-391 | the loops with removal and popping compute the specified regressions |
| LogTail.SplitAfterNewline | orchestune/status_snapshot.py:158-183 | splitting distributes over a cut after a newline |
| LogTail.SplitIff | orchestune/status_snapshot.py:181-183 | the lines are the one way to cut the text at its breaks: with them they join to the text, and no line holds a break |
| LogTail.SuffixIsEnough | orchestune/status_snapshot.py:158-183 | a suffix with more than n newlines has the same last n lines as the whole file |
| LogTail.ReadTail | orchestune/status_snapshot.py:158-183 | for every file, chunk size above zero and n, the backward reader returns the last n lines of the whole file, and terminates |
| LogTail.ReadLogTail | orchestune/status_snapshot.py:158-183 | the same for the chunk size of the source |
| LogTail.SingleByteDecoderIsLawful | orchestune/status_snapshot.py:158-183 | the assumption on the decoder can be met |
| OutcomeHistory.LatestIsNewest | orchestune/outcome_record.py:374-404 | the record kept by the scan is the newest qualifying one, the last among equals |
| OutcomeHistory.ParseFromComments | orchestune/outcome_record.py:374-404 | the scanning loop returns that record |
| OutcomeHistory.ChildRecordIsLatestOwned | orchestune/outcome_record.py:465-493 | filtering first and scanning afterwards finds the newest record the child owns |
| OutcomeHistory.OwnedIff | orchestune/outcome_record.py:465-493 | a record is a child's own when it names its Issue, and its pull request if both are known |
| OutcomeHistory.CalculateBlockedAttempt | orchestune/outcome_record.py:407-462 | the loop over latest and maximum computes the specified number |
| OutcomeHistory.AttemptCountsStretches | orchestune/outcome_record.py:407-462 | in a history grown from nothing the attempt number is the number of maximal runs of equal identity, the new one included |
| OutcomeHistory.ResendKeepsNewExceeds | orchestune/outcome_record.py:407-462 | resending the last identity keeps the number; another identity exceeds every earlier number |
| BranchNaming.ValueOfDecimal | orchestune/branch_naming.py:32-55 | printing a number and reading it back is the identity |
| BranchNaming.BuildTaskBranchName | orchestune/branch_naming.py:32-55 | a name is built exactly for a non-empty prefix without a slash |
| BranchNaming.RoundTripIff | orchestune/branch_naming.py:27-79 | a built name parses back to its parts exactly when the subtask has no newline |
| BranchNaming.BuildInjective | orchestune/branch_naming.py:32-55 | building is injective up to the default subtask |
| BranchNaming.BuiltNameMatchesIff | orchestune/branch_naming.py:82-94 | a built name belongs to its own Issue and subtask and to no other |
| BranchNaming.ParsedShape | orchestune/branch_naming.py:64-79 | every recognised name has the documented shape |
| BranchNaming.LeadingZeroMatches | orchestune/branch_naming.py:82-94 | a name with a leading zero is recognised although no build yields it |
| BranchResolution.SnapshotUnique | orchestune/task_branch_resolution.py:139-148 | an ordered snapshot is determined by its set of records |
| BranchResolution.TaskBranchResolver.constructor | orchestune/task_branch_resolution.py:139-148 | the dictionary loop leaves exactly the consistent records, in order |
| BranchResolution.ResolveDependsOnSet | orchestune/task_branch_resolution.py:139-214 | permuting or repeating the records changes no resolution |
| BranchResolution.ResolutionMeaning | orchestune/task_branch_resolution.py:178-214 | a resolution names only consistent matching records; the fallback is used exactly when the canonical branch is absent and one branch alone is left; with the canonical branch present the linked pull request is the only one from that name |
| BranchResolution.MatchesIff | orchestune/task_branch_resolution.py:150-168 | a pull request carries a subtask exactly when it is open, from the same repository, its name parses to the Issue and subtask, and it closes nothing or this Issue |
| BranchResolution.TaskBranchResolver.HasVerifiedCandidate | orchestune/task_branch_resolution.py:175-176 | a candidate is reported exactly when some kept record matches |
| BranchResolution.NoCandidateNoPr | orchestune/task_branch_resolution.py:175-214 | without a candidate the resolution is the canonical name and no pull request, whatever was observed |
| BranchResolution.DeleteOnlyCanonicalPresent | orchestune/task_branch_resolution.py:66-133 | deletion is allowed, by a resolution or a receipt made from it, only for the canonical name observed present; an indeterminate state allows nothing |
| MarkerBlocks.ReplaceAllBlocks | orchestune/issue_parsing.py:106-132 | the loop with cursor and pieces computes the specified replacement, whose blocks `HealedBlocks` and `HealsToOneIff` describe |
| MarkerBlocks.BlocksInOrder | orchestune/issue_parsing.py:106-132 | the matches are found in order and do not overlap |
| MarkerBlocks.WindowKeepsInside | orchestune/issue_parsing.py:510-544 | the window keeps exactly the times inside, with multiplicity, sorted, and is idempotent |
| MarkerBlocks.LaunchHistoryFromBody | orchestune/issue_parsing.py:454-480 | the reading loop computes the specified history |
| MarkerBlocks.HistoryIsSum | orchestune/issue_parsing.py:454-507 | duplicated blocks are read as the sorted multiset sum of their times |
| MarkerBlocks.WrittenBlockMatches | orchestune/issue_parsing.py:547-567 | a written block is found again exactly where it stands, whatever surrounds it |
| MarkerPattern.MatchIff | orchestune/issue_parsing.py:79-82 | a block is found exactly where the pattern stands: marker, line break, opening fence, white space to its last line break, the shortest content, a fence, and the blank rest of its line |
| MarkerBlocks.BackfillLaunchHistory | orchestune/issue_parsing.py:547-567 | the update is the specified one, or none when the history is already there |
| MarkerBlocks.UnaryCodecIsLawful | orchestune/issue_parsing.py:547-567 | the laws asked of the block codec can be met |
| MarkerHealing.BlocksAround | orchestune/issue_parsing.py:79-85 | a written block with any text on its sides: the blocks of the whole are that block and then those of the text behind it, unless the text in front opens a block of its own, which then comes first |
| MarkerHealing.HealedBlocks | orchestune/issue_parsing.py:106-132 | for every body with a block, the replaced body is the text in front, one new block and the kept text, and its blocks are the new one at the place of the first and those of the kept text |
| MarkerHealing.HealsToOneIff | orchestune/issue_parsing.py:106-132 | replacing leaves exactly one block if and only if the kept text holds none, which is if and only if replacing again changes nothing; otherwise replacing again makes the body shorter |
| MarkerHealing.BlankGapsHeal | orchestune/issue_parsing.py:106-132 | blocks that were appended again and again, with blanks alone between them, always heal to one |
| MarkerHealing.BackfillReadsBackIff | orchestune/issue_parsing.py:547-567 | for every body and history that is written: the new body has exactly the one written block if and only if no header is open in front and no block is left behind, and the sorted history reads back if and only if no header is open in front and the kept text has no times |
| MarkerHealing.BackfillIsStable | orchestune/issue_parsing.py:547-567 | on such a body replacing again changes nothing, and a second backfill does nothing exactly when the history is sorted |
| MarkerHealing.UnmarkedHeals | orchestune/issue_parsing.py:547-567 | a body whose prose holds no marker outside its blocks meets that condition |
| MarkerHealing.MarkedOnceIff | orchestune/issue_parsing.py:547-567 | the marker stands once in the new body if and only if it stands nowhere in the prose of the old one |
| MarkerHealing.SwallowedHistory | orchestune/issue_parsing.py:547-567 | whenever a header is open in front of the written block, nothing of the history reads back |
| MarkerHealing.OpenFenceSwallowsAppend | orchestune/issue_parsing.py:547-567 | a concrete body without a block whose backfill reads back as empty |
| MarkerHealing.JoinedProseMakesBlock | orchestune/issue_parsing.py:106-132 | a concrete body whose replacement has two blocks and another history than the written one |
| PlanScanners.FindMatchingBrace | orchestune/plan_writer.py:150-176 | returns the first index where the unquoted brace depth returns to zero, or none |
| PlanScanners.SplitFlowTopLevel | orchestune/plan_writer.py:193-229 | the loop cuts exactly at the unquoted commas of depth zero |
| PlanScanners.SegmentsJoinBack | orchestune/plan_writer.py:193-229 | joining the segments with commas gives the input back, except for one dropped trailing comma at a split point |
| PlanScanners.JoinedPartsSplit | orchestune/plan_writer.py:193-229 | neat parts joined with commas split into themselves, and no brace closes inside |
| PlanScanners.ClosesFromInside | orchestune/plan_writer.py:150-176 | around such an inside the brace closes right after it |
| PlanLines.KeyLineReads | orchestune/plan_writer.py:41-41 | a key line reads as its own key and value |
| PlanLines.RewrittenReadsBackIff | orchestune/plan_writer.py:30-38 | a rewritten line is one line that reads back the number exactly when the old value stood on the line of its key and no comment touched it |
| PlanLines.EmptyValueSplits | orchestune/plan_writer.py:36-38 | a concrete key without value whose rewrite is two lines |
| PlanLines.CommentIsGlued | orchestune/plan_writer.py:36-38 | a concrete comment in place of a value that spoils the number |
| PlanFlow.ReplaceEntries | orchestune/plan_writer.py:279-290 | the loop replaces every number entry, or appends one |
| PlanFlow.WriteFlowStyleIssueNumber | orchestune/plan_writer.py:232-291 | rewrites the line exactly when its decoded mapping names the subtask |
| PlanFlow.RenderedFlowParses | orchestune/plan_writer.py:232-291 | a rewritten flow item is read as the same item with the new entries |
| PlanFlow.FlowWriteReads | orchestune/plan_writer.py:232-291 | the rewritten item is one item again; it names the subtask and its number if and only if a replaced number is the last of the mapping and an appended one follows no trailing comma, and then the mapping is the old one with the number set |
| PlanFlow.DecodedIsSensible | orchestune/plan_writer.py:259-290 | a mapping that names an id is whole entries with at most one gap at its end, and is the union of its segments |
| PlanFlow.WrittenDecodes | orchestune/plan_writer.py:259-290 | the rewritten inside decodes to the old mapping with the number set, or does not hold the number |
| PlanFlow.TrailingCommaBreaks | orchestune/plan_writer.py:232-291 | a concrete valid item that is rewritten to one that does not decode |
| PlanBlocks.FirstHit | orchestune/plan_writer.py:82-124 | the field found is on the first line that carries a wanted one, in the item's own column |
| PlanBlocks.BlockWriteReads | orchestune/plan_writer.py:395-434 | one line of the item is changed or inserted, its column and ids stay, and the number reads back exactly when the flow mapping keeps it or an existing line was clean |
| PlanBlocks.UnwritableIff | orchestune/plan_writer.py:395-434 | an item is passed over exactly when it does not carry the id, and refused exactly when it carries it in its fields and its number has no line of its own |
| PlanRegions.ListWriteTargets | orchestune/plan_writer.py:395-434 | one line of the list changes, the item of the id carries the number, and every id that item does not carry is found where it was |
| PlanBounds.RegionReplaced | orchestune/plan_writer.py:294-341 | replacing the list's lines moves the closing line by the difference and leaves the list where it starts |
| PlanBounds.ListWriteKeepsSound | orchestune/plan_writer.py:307-341 | a written line neither closes the frontmatter nor ends the list, and reads as one piece |
| PlanWriter.FieldKeepsList | orchestune/plan_writer.py:344-392 | writing a parent field changes or inserts one line, the tracked end still closes the frontmatter, and the list is the same lines |
| PlanUpdates.SubtaskWriteReads | orchestune/plan_writer.py:395-434 | writing one subtask: one line, exact end, the number reads back, other ids and fields stay |
| PlanUpdates.EntriesWriteReads | orchestune/plan_writer.py:505-509 | writing all entries gives each its number and leaves every other id and field |
| PlanUpdates.FieldReadsBack | orchestune/plan_writer.py:367-378 | a written field reads back as its text, in front of what stood behind the old value |
| PlanUpdates.FieldNumberReadsBack | orchestune/plan_writer.py:367-378 | a written parent number reads back as that number |
| PlanUpdates.FieldDoubledIff | orchestune/plan_writer.py:344-364 | a write leaves a key twice if and only if its line is there with a value the writer does not recognise |
| PlanUpdates.FieldKeepsOthers | orchestune/plan_writer.py:344-364 | writing one field leaves the text of every other |
| PlanUpdates.PlanWriteIsMapUpdate | orchestune/plan_writer.py:481-511 | the whole write is a map update: entries, parent number and parent source read back, other ids read what they read, the tracked end closes the new frontmatter, at most one line is added for each value |
| PlanItems.StaysInsideIff | orchestune/plan_writer.py:66-76 | a line ends an item exactly when it is neither blank nor a comment and begins no deeper than the dash, character by character |
| PlanItems.ItemEndsIff | orchestune/plan_writer.py:46-79 | an item runs exactly up to the next such line |
| PlanItems.EndsListIff | orchestune/plan_writer.py:307-341 | a line ends the list exactly when it begins in the first column and is neither blank, a comment nor an item |
| PlanItems.IdleLineInItem | orchestune/plan_writer.py:82-124 | a blank or comment line in an item changes neither its ids, its number nor whether the number can be written |
| PlanItems.IdleLineInList | orchestune/plan_writer.py:46-79 | nor does it change which item of the list an id is found in |
| PlanItems.IdleLineInPlan | orchestune/plan_writer.py:307-341 | anywhere in the frontmatter and in any column such a line changes no id and number that is read, and the outcome of no write, unless it is a comment right behind a bare dash |
| PlanItems.IdleLineAndWrites | orchestune/plan_writer.py:481-511 | a plan whose entries can be written takes them with such a line as without it, and the same numbers read back |
| PlanItems.KeyAtIff | orchestune/plan_writer.py:41-41 | a line holds a field exactly when its key stands in the column of the item, behind blanks and in front of a colon |
| PlanItems.OneNumberLine | orchestune/plan_writer.py:413-430 | behind a write an item has a line for its number, and no second one unless it had two |
| PlanPatterns.KeyIff | orchestune/plan_writer.py:41-41 | a key is an identifier in front of a colon, and its value the rest of the line without white space in front |
| PlanPatterns.TailIff | orchestune/plan_writer.py:31-39 | what is kept behind a value is exactly its blanks and its comment, in front of the end of the line |
| PlanPatterns.QuotedIff | orchestune/plan_writer.py:31-39 | a quoted value runs to the next quote of its kind |
| PlanPatterns.DelimiterIff | orchestune/plan_writer.py:29-29 | the delimiter is three dashes and white space |
| PlanPatterns.SubtasksKeyIff | orchestune/plan_writer.py:43-43 | the key of the list stands in the first column, with nothing or a comment behind it |
| PlanPatterns.TitleIff | orchestune/plan_writer.py:30-30 | the anchor of the parent number is a line that begins with the title key |
| PlanPatterns.EntryKeepsBlank | orchestune/plan_writer.py:279-290 | a rewritten flow entry keeps the blank it begins with, and every other entry stays |
| PlanExample.PlainIsLawful | orchestune/plan_writer.py:127-147 | a decoder that meets all the laws exists |
| PlanExample.SmallPlanIsWritten | orchestune/plan_writer.py:481-511 | a concrete plan meets everything the map-update theorem asks, and a number written to it reads back |
| PlanExample.NumberFirstIsBroken | orchestune/plan_writer.py:413-424 | a concrete item that carries the id and whose write fails its assertion |
| PlanExample.CommentHidesFields | orchestune/plan_writer.py:103-117 | a concrete comment behind a bare dash that makes a subtask unfindable |
| PlanExample.TwoWordsAreDoubled | orchestune/plan_writer.py:344-364 | a concrete field that is doubled by every write of it |
| PlanUpdates.NotFoundIff | orchestune/plan_writer.py:395-434 | a subtask is reported missing exactly when no item carries its id |
| PlanUpdates.WriteFailsIff | orchestune/plan_writer.py:395-434 | a write reports a missing subtask exactly when no item carries it, and breaks exactly when the first item that does carries it in its fields and has a number without a line of its own |
| PlanUpdates.PlaceholderAgrees | orchestune/plan_writer.py:437-453 | trying a placeholder succeeds exactly when the real number can be written |
| PlanFile.DirectFieldsOf | orchestune/plan_writer.py:82-124 | the loops collect the direct fields and their column |
| PlanFile.LineList.FindFrontmatterBounds | orchestune/plan_writer.py:294-304 | finds the closing delimiter, or says which one is missing |
| PlanFile.LineList.FindSubtasksBounds | orchestune/plan_writer.py:307-341 | finds the lines of the subtask list |
| PlanFile.LineList.WriteFrontmatterField | orchestune/plan_writer.py:344-364 | edits the list of lines in place as specified and returns the moved end |
| PlanFile.LineList.BlockEnd | orchestune/plan_writer.py:46-79 | the end of the item that starts at this line |
| PlanFile.LineList.WriteItem | orchestune/plan_writer.py:401-433 | edits one item in place as specified, or leaves the lines alone |
| PlanFile.LineList.WriteSubtaskIssueNumber | orchestune/plan_writer.py:395-434 | the search over items edits the lines in place as specified and returns the exact new end |
| PlanFile.PlanFile.WriteSubtasks | orchestune/plan_writer.py:505-509 | the loop over the entries, with the list found again each time, computes the specified lines and end |
| PlanFile.PlanFile.WriteIssueNumbers | orchestune/plan_writer.py:481-511 | saves the specified lines, or on any error leaves the file as it was |
| PlanFile.PlanFile.ValidateSubtaskIssueNumberTargets | orchestune/plan_writer.py:437-453 | reports exactly the error that writing placeholders would meet, and saves nothing |

## Left out

- The legacy completion path (`_reserve_legacy_completion`, `_mark_legacy_handoff_ready`) and the stages before
  `RESERVED`: a compatibility copy with weaker guarantees.
- Ledger entries that do not parse (`InvalidLedgerRecord`) and the error texts and `next_actions` of every failure.
- The review hold before publication (`_ensure_review_hold`), CI and pull-request evidence, adoption of pull
  requests, workspace discovery, token digests: environment queries with flat checks.
- The review summary and the not-needed review requirement of an outcome, which the evidence may replace; the other
  texts of an outcome are one field, `notes`.
- Posting evidence made of blank strings: evidence is present or absent.
- OutcomePosting.PostIssueOutcome: a POST that is applied only after the call returned is excluded by assumption.
- WorktreeTakeover.TakeoverWorld.PrepareTaskWorktree: the worktree preparation itself is not part of this model; the
  marker rule is the one its callers rely on.
- The queued-overlap notices and the comment of an amend: informational, they decide nothing.
- BloatBaseline.FindRegressions: comparing a missing symbol with a present one raises in the source; the model orders
  a missing symbol first.
- PlanItems.OneNumberLine: is about items with fields; a flow item is one mapping, whose keys `FlowWriteReads` covers.
- BranchNaming.RoundTripIff: digits are the ten ASCII digits, although the pattern of the source accepts other
  decimal digits too.
- PlanFlow.FlowWriteReads: says it for items whose segments are whole entries or spaces and leave quotes and brackets
  closed; comments between the braces, anchors and merge keys are outside the laws of the decoder.
- PlanUpdates.PlanWriteIsMapUpdate: asks of the lines before the write that each is one line, that items which carry an
  entry are clean targets, that no item carries the id of two entries and that the parent number has a recognised line
  or none; the parent source reads back under the same condition on its line. Multi-line flow items and quoted block
  keys are unsupported by the code as well.
- Line separators other than a newline inside a rewritten plan line, and the mode bits and temporary file of the
  atomic replace.
- CLI modules, rendering, status tables, installers, dispatch, garbage collection and the consistency engine.
