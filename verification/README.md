# Verified model of the workflow extensions

This project models the parts of the repository where several agents, several files or several steps must
fit together, and proves what they promise over whole runs.

- **Workflow rooms** (`RoomSpec`, `RoomReads`, `RoomPages`, `RoomStore`, `RoomProtocol`, `RoomRuns`, `RoomMessages`). The append-only event log, one read
  cursor per agent and the lock file. `RoomSpec` says what each room tool does when it runs alone and keeps account
  of what was handed to whom; `RoomStore` is the tools as loops over the two files; `RoomProtocol` lets many processes interleave step by
  step, give up, fail and crash; `RoomRuns` proves the protocol against `RoomSpec`, and `RoomMessages` what agents may conclude from what they are told.
- **The AFK ship supervisor** (`CodePaths`, `ShipEngine`, `ShipRuns`, `ShipHistory`, `ShipRecords`, `ShipFields`, `ShipStanding`, `ShipCommand`, `ShipStart`,
  `LanePolicy`). The state machine over
  stages, lanes and events, from created and from fabricated states; the slash command and the tool that create runs; the lane policy.
- **PRD planning** (`Approval`, `Planning`, `PlanningTools`, `PlanningWords`, `PlanningCalls`, `PlanningStore`). The four flags, scope and
  invalidations, the text classifier for approvals, the pointers that decide which room is meant, and the gates read from disk.
- **Evidence authority** (`Ledger*`, `Json`, `CanonicalEvidence`, `CanonicalWords`, `CoderGate`, `GatePayload`, `ReviewerMemo`, `ReviewerProofs`,
  `EvidenceMatrix`, `Matrix*`, `PlanStore`, `PlanLock`, `PlanCalls`). The evidence ledger, canonical extraction from a JSON tree, the coder gate,
  the role-based reviewer memo, and the ready-plan lock on the acceptance/evidence matrix.
- **The automatic brief** (`AutoBrief`). Truncation to a UTF-8 byte budget over UTF-16 code units, and the per-repository cooldown.
- **The debug lane** (`DebugLane`, `DebugRules`, `DebugChain`, `DebugText`, `DebugAreas`). Strict completion, the bound on repeated fixes of one area, and the text
  functions that decide an item's area.

Each program part is either functions (where the source returns new values) or methods with loops and classes with mutable files
(where the source works step by step), and every method is proved against a function whose properties are then proved over all inputs
and all runs. `RoomPages`, `ShipRecords`, `ShipFields`, `ShipStart`, `PlanningWords`, `LedgerMarks`, `CanonicalWords`, `GatePayload`, `MatrixWords`, `PlanCalls`,
`DebugRules` and `DebugAreas` say what those functions mean on the words, fields, numbers and events that come in and go out. `Js` holds the JavaScript notions several parts share: trimming, lower-casing, ordered sets, and numbers with `NaN` and the infinities.

Timestamps, random suffixes, the clock, environment variables and the phrase lists that only search free text are parameters.

## What does not hold

Where a promise of the documentation or of a comment fails, the model keeps the code, shows where the promise fails, and proves the condition
under which it is met.

- A read that crashes after writing its cursor and before answering has moved the cursor past events nobody was handed; apart from such
  reads nothing is lost (`RoomRuns.EveryReadEventIsAccounted`, `RoomRuns.CrashBeforeAnswerLosesEvents`). A process that crashes
  inside the lock leaves a lock file nobody removes; every other holder can release it (`RoomRuns.LockIsFreedIff`).
- `blocked` and an exhausted retry budget are not final, while one failed check on a reviewer-required run is
  (`ShipRuns.CanBeDeliveredIff`). An approval stays in force through any later events nobody reviewed, unless they record a failed
  check or name code in a text-only run (`ShipHistory.ApprovalSurvivesLaterWork`). A
  debug run promoted to a full sprint can never be delivered (`ShipHistory.PromotedSprintIsDead`).
- The retry budget of the slash command is at least one; the tool's can be zero (`ShipCommand.ToolBudgetIff`).
- The lane policy honours a promotion trigger exactly when no unauthorised remote action is asked for and a classified text change names references
  and evidence (`LanePolicy.TriggersAreHonouredIff`, with `LanePolicy.OversizedWithoutRefsIsBlocked` as a failing case), lets a debug session implement where the
  supervisor refuses (`LanePolicy.EngineIsStricterInDebug`), and through its tool blocks every full sprint (`LanePolicy.ToolBlocksFullSprints`) and
  lets a debug session with an unknown selected lane through that it would refuse itself (`LanePolicy.ToolOnDebugIff`).
- The sprint gate forgets an architecture invalidation at the next write of flags that leaves its own three set
  (`Planning.SprintGateHistory`, `Planning.SprintGateForgetsArchitecture`), and reclassifying
  a record as tiny opens the bypass (`Planning.DowngradeOpensBypass`). A contraction typed with a typographic apostrophe is not read as a
  negation; that and nothing else makes the two apostrophes differ (`Approval.ApostrophesMatterIff`, `Approval.CurlyNegationConfirms`).
- An explicit event id can take the next generated id of a kind. Appends of that kind without an id are then refused until an append of the
  kind brings an id or number of its own and leaves the following number free (`LedgerIds.SquattingEndsIff`).
- Damaged matrix rows are forgotten, without a replacement matrix, by writing the plan as a draft once. By some calls the plan then becomes ready
  exactly when its surviving rows are lockable for criteria of their own (`PlanLock.ReadyWithoutReplacementIff`, `PlanLock.DraftingForgetsDamage`,
  `PlanLock.DamagedButReady`).
- A ledger offered as evidence counts only when every entry has a textual kind (`CanonicalEvidence.LedgerIsReadIff`), an envelope's own payloads
  only when no sidecar marker stands in it (`CanonicalEvidence.MarkerInsideTheEnvelopeHidesIt`), and a legacy single event that
  carries evidence fields of its own is read as canonical (`CanonicalEvidence.LegacySingleEventIff`).
- Prose cannot approve a role the canonical review does not, but dropping a prompt-only argument can lift a veto
  (`ReviewerProofs.ProseFlipsIff`), and an empty set of required roles is approved by nobody (`ReviewerProofs.NoRolesNoReview`).
- The evidence text of a debug completion, or a note, can move a done item into an area that is already full
  (`DebugChain.CompletionKeepsBoundIff`, `DebugChain.NoteKeepsBoundIff`, `DebugText.SourceTextEscapesEveryBound`).

## Model

| member | source | states |
|---|---|---|
| RoomSpec.RoomsLoseNothing | README.md:365-366 | after any sequence of requests and failed calls, with any limit, `afterSeq` and `markRead`, every event at or below an agent's cursor was handed to that agent, and the log is strictly increasing |
| RoomSpec.CursorsNeverMoveBack | extensions/workflow/rooms/tools-impl/room_read.ts:85-122 | between any two points of a history no cursor moves back, the earlier log is a prefix of the later, and no delivery is taken back |
| RoomSpec.FinishIsInformed | extensions/workflow/rooms/tools-impl/room_job_done.ts:72-108 | a `room_job_done` accepted without the override means every message for the agent in the log had been handed to it |
| RoomSpec.RefusedChangesNothing | extensions/workflow/rooms/tools-impl/room_read.ts:107-110 | a refused request leaves log, cursors and deliveries untouched |
| RoomSpec.AcknowledgedAppendsStay | README.md:322-323 | an acknowledged append is in every later log, from its sender, under the number its caller was told |
| RoomSpec.CommitLosesNothing | extensions/workflow/rooms/tools-impl/room_read.ts:81-125 | the step of the delivery invariant: any one request, or one that died after its append, keeps it |
| RoomSpec.CommitIsMonotone | extensions/workflow/rooms/tools-impl/room_read.ts:111-121 | one request moves no cursor back nor past the log, and takes no delivery back |
| RoomSpec.AgentsOfMovesOneCursor | extensions/workflow/rooms/tools-impl/room_read.ts:111-121 | only an accepted marking read moves a cursor, only its own agent's, and to the highest number on its page |
| RoomSpec.ReadCoversItsCursor | extensions/workflow/rooms/tools-impl/room_read.ts:90-121 | no event between the old and the new cursor is missing from the page |
| RoomSpec.PageIsGapFree | extensions/workflow/rooms/tools-impl/room_read.ts:91-95 | a page of any size holds every event past the cursor up to the page's highest number |
| RoomSpec.CursorSplits | extensions/workflow/rooms/tools-impl/room_read.ts:91-91 | in an increasing log a cursor splits read from unread at one position |
| RoomReads.ReadsPageThroughLog | extensions/workflow/rooms/tools-impl/room_read.ts:81-125 | k default reads of any limit return exactly the next k pages of the unread log, in order, without gap or repeat |
| RoomReads.PageMovesCursor | extensions/workflow/rooms/tools-impl/room_read.ts:91-112 | a page moves the cursor past exactly its own events |
| RoomReads.DefaultReadTurnsPage | extensions/workflow/rooms/tools-impl/room_read.ts:86-121 | an omitted `afterSeq` means the stored cursor: the next page comes back and the cursor stands at its end |
| RoomReads.ReadsReachAcceptance | README.md:365-366 | with nothing new in the log, reads of any limit that together cover it make `room_job_done` accept |
| RoomPages.ReadReturnsNextEvents | extensions/workflow/rooms/tools-impl/room_read.ts:66-110 | for any `afterSeq` and `limit`: a read is refused exactly when it marks and asks to start past the stored cursor; otherwise it returns, in log order, the events numbered above the one asked for (the stored cursor when none is given), at most the limit (200 by default, 1 to 2000), and says whether any are left |
| RoomPages.RereadStartsOver | extensions/workflow/rooms/tools-impl/room_read.ts:86-92 | asked from zero, a read is never refused and returns the log from its first event |
| RoomPages.OddStarts | extensions/workflow/rooms/tools-impl/room_read.ts:86-110 | `NaN` finds and marks nothing; infinity finds nothing and may not mark |
| RoomPages.ReadLeaves | extensions/workflow/rooms/tools-impl/room_read.ts:107-121 | a read leaves the log; where it marks, its agent's cursor stands at the last event returned and never further back than before, and no other agent's entry changes |
| RoomPages.FinishIsRefusedIff | extensions/workflow/rooms/tools-impl/room_job_done.ts:49-79 | a job may not end exactly when it is not named, the room has no log, or without the override a message for the agent stands behind its cursor |
| RoomPages.JobsEnter | extensions/workflow/rooms/tools-impl/room_job_done.ts:83-105 | a job that starts or ends is one line under the next number and the agent's entry, active or done, with its cursor where it was; refused, nothing changes |
| RoomPages.CreationEnters | extensions/workflow/rooms/tools-impl/room_create.ts:54-86 | a new room has its first line and no agent; created again it stays as it is |
| RoomPages.MessagesEnter | extensions/workflow/rooms/tools-impl/room_send.ts:44-96 | an accepted message is one line under the next number, from its sender, to the trimmed name; the sender keeps status and cursor |
| RoomStore.HighestSeq | extensions/workflow/rooms/store.ts:173-177 | the loop for the next number finds the highest one |
| RoomStore.EventsAfter | extensions/workflow/rooms/tools-impl/room_read.ts:91-91 | the filter returns the events past the cursor in log order |
| RoomStore.UnreadRelevant | extensions/workflow/rooms/store.ts:212-218 | the filter returns exactly the unread messages for the agent |
| RoomStore.RoomFiles.RoomCreate | extensions/workflow/rooms/tools-impl/room_create.ts:54-86 | on the files, does what the specification says of a create |
| RoomStore.RoomFiles.RoomJobStart | extensions/workflow/rooms/tools-impl/room_job_start.ts:48-102 | on the files, does what the specification says of a job start |
| RoomStore.RoomFiles.RoomSend | extensions/workflow/rooms/tools-impl/room_send.ts:44-96 | on the files, does what the specification says of a message |
| RoomStore.RoomFiles.RoomRead | extensions/workflow/rooms/tools-impl/room_read.ts:55-167 | on the files, does what the specification says of a read, refusal of skipping ahead included; `RoomPages` says what that is for every given number |
| RoomStore.RoomFiles.RoomJobDone | extensions/workflow/rooms/tools-impl/room_job_done.ts:49-143 | on the files, does what the specification says of a job end, refusal with the unread messages included |
| RoomProtocol.RunKeepsInv | extensions/workflow/rooms/store.ts:120-154 | in every interleaving the files agree with a sequential history of whole requests, up to the unfinished work of the lock holder |
| RoomProtocol.EffectIsFaithful | extensions/workflow/rooms/store.ts:120-154 | each single step, crash and failure included, keeps that agreement |
| RoomProtocol.ExclusiveKept | extensions/workflow/rooms/store.ts:127-139 | only the process named in the lock is inside it |
| RoomProtocol.ChecksHoldKept | extensions/workflow/rooms/tools-impl/room_read.ts:60-61 | what a tool checks before the lock still holds when it gets the lock |
| RoomRuns.RunsKeepOrder | README.md:322-323 | in every interleaving at most one process is inside the lock and the log is strictly increasing |
| RoomRuns.EveryReadEventIsAccounted | README.md:365-365 | in every interleaving an event below a cursor was returned to that agent or sits in the unanswered read that moved the cursor |
| RoomRuns.CrashBeforeAnswerLosesEvents | extensions/workflow/rooms/tools-impl/room_read.ts:111-125 | from any world with unread events and a free lock, a reader that crashes before answering leaves its cursor past events nobody was handed |
| RoomRuns.CrashedReadIsNeverAnswered | extensions/workflow/rooms/tools-impl/room_read.ts:145-166 | no later run brings those events back to that call |
| RoomRuns.OnlyTheHolderWrites | extensions/workflow/rooms/store.ts:127-139 | whoever waits, gives up or is refused before the lock changes neither log nor cursors |
| RoomRuns.EveryReadEventIsDelivered | README.md:365-365 | while no process crashes between the writing of its cursors and its answer, every event below a cursor was returned or is in a running read's answer |
| RoomRuns.CrashedHolderFreezesRoom | extensions/workflow/rooms/store.ts:127-153 | once the lock holder has crashed, no run of the others changes log, cursors or lock |
| RoomRuns.HolderReleases | extensions/workflow/rooms/store.ts:139-153 | a live holder, left to itself, releases the lock within five steps |
| RoomRuns.LockIsFreedIff | extensions/workflow/rooms/store.ts:127-153 | in every reachable world a taken lock can become free exactly when its holder has not crashed inside the call |
| RoomRuns.NoAcknowledgedAppendIsLost | README.md:322-323 | an append acknowledged to its caller is in the file at every later moment of every interleaving |
| RoomRuns.AcknowledgedNumbersDiffer | README.md:322-322 | later acknowledged appends have higher numbers, so none are shared |
| RoomRuns.FinishedJobsWereInformed | README.md:366-366 | in every interleaving a job that ended without the override had been handed, or accounted for, every message for it |
| RoomRuns.AloneRefinesSpec | extensions/workflow/rooms/store.ts:120-154 | a process that runs alone does exactly what the specification says of its request, answers, and leaves the lock free |
| RoomMessages.UnreadCountIsTrusted | extensions/workflow/rooms/tools-impl/room_read.ts:100-124 | the reported unread count is zero exactly when `room_job_done` would now be accepted, for every accepted read |
| RoomMessages.HasMoreIsTrue | extensions/workflow/rooms/tools-impl/room_read.ts:91-93 | `hasMore` of a default read is true exactly when the next default read returns something |
| RoomMessages.MessagesReachTheirReaders | extensions/workflow/rooms/store.ts:212-218 | an accepted message is one line with its text, relevant to exactly the agents it is addressed to |
| RoomMessages.SentLineIsLogged | extensions/workflow/rooms/tools-impl/room_send.ts:60-96 | an accepted message is in every later log, relevant to its reader |
| RoomMessages.SentBeforeFinished | README.md:365-366 | in every interleaving a message accepted before its reader's job ended without the override was returned to that reader or is accounted for |
| CodePaths.AnchorsAreIgnored | extensions/sprint/ship-engine.ts:220-223 | a reference is judged as the path before its anchor, whatever one-line text the anchor holds |
| CodePaths.StripAnchorCuts | extensions/sprint/ship-engine.ts:220-223 | what is cut off a reference is its first `#` with no line break behind it, and all that follows |
| CodePaths.CodeLookingIff | extensions/sprint/ship-engine.ts:385-389 | a path is code exactly when it is not blank and, in lower case, ends in a code extension or has a code directory at its start or behind a slash |
| ShipRuns.DeliveryIff | extensions/sprint/ship-engine.ts:391-461 | a step reaches delivery exactly when it is a finalization and the durable state and the record meet every condition, whatever the stage says |
| ShipRuns.DeliveryIsSafe | scripts/task-011-phase-b-smokes.ts:223-254 | on any state, fabricated or not, a reviewer-required run that is delivered is approved, names files and references, has a passed and no failed check, and a passing finalization and audit |
| ShipRuns.StepGrows | extensions/sprint/ship-engine.ts:474-495 | no event takes back files, references, checks or attempts, changes budget, permissions or confirmations, or outside debug lowers `reviewerRequired` |
| ShipRuns.RunGrows | scripts/task-011-three-lane-afk-smokes.ts:280-285 | the same over whole event sequences |
| ShipRuns.DeadStaysDead | extensions/sprint/ship-engine.ts:391-461 | an unknown lane, missing gates, code in a text-only run or a failed check under review are never repaired |
| ShipRuns.CanBeDeliveredIff | extensions/sprint/ship-engine.ts:474-495 | some event sequence delivers a state exactly when it has none of those four defects |
| ShipHistory.VerdictIsLastReview | extensions/sprint/ship-engine.ts:309-332 | the durable reviewer outcome is the last reviewer event's |
| ShipHistory.RunSound | extensions/sprint/ship-engine.ts:474-495 | over every run the default reviewer requirement holds and a delivered state meets every condition of delivery |
| ShipHistory.DeliveredRunsMetTheirBar | scripts/task-011-three-lane-afk-smokes.ts:220-236 | every created run that stands delivered, on the lists it has on record: code lanes were approved last and fully evidenced, text-only ones name no code, finalization and audit pass |
| ShipRecords.StepRecords | extensions/sprint/ship-engine.ts:82-87 | after one event the lists hold what they held and what the event reported, if its lane takes it, and nothing else |
| ShipRecords.RunRecords | extensions/sprint/ship-engine.ts:103-385 | over any run from any state the durable files, references and checks are those at the start and those reported by the coder completions, focused fixes, evidence and diagnoses that were taken, blocked work included and refused work not |
| ShipRecords.DeliveredTextRunsNamedNoCode | extensions/sprint/ship-engine.ts:225-237 | a created text-only run that is delivered, approved or not, never took an event that reported a code-looking file or reference |
| ShipRecords.DeliveredRunsReportedEvidence | extensions/sprint/ship-engine.ts:391-461 | in a created run delivered outside debug some taken event reported a file, some a reference and some a passed check, and under review none a failed one |
| ShipFields.StepWritesFields | extensions/sprint/ship-engine.ts:103-461 | every other field after an event: lane and hotfix kind, the debug findings, attempts, the reviewer requirement, the verdict, the risk note and the finalization are written by the events named and with what is named; budget, permissions and confirmations by none |
| ShipFields.DebugEventsStand | extensions/sprint/ship-engine.ts:103-187 | where a diagnosis, a promotion and the report-only choice leave a run, and that a refused one blocks it and changes nothing else it found |
| ShipHistory.OnlyPromotionLeavesDebug | extensions/sprint/ship-engine.ts:133-161 | the debug lane is left exactly by choosing hotfix or full sprint on a diagnosed run |
| ShipHistory.DebugRefusesWork | scripts/task-011-three-lane-afk-smokes.ts:463-472 | implementation events in the debug lane block the run and change nothing else |
| ShipHistory.DebugIsAuditFirst | scripts/task-011-three-lane-afk-smokes.ts:237-279 | a run that left the debug lane was promoted by an explicit choice after a diagnosis; a recommendation never does it |
| ShipHistory.PromotedSprintIsDead | extensions/sprint/ship-engine.ts:205-209 | a debug run promoted to a full sprint is never delivered, since no event confirms the gates |
| ShipHistory.OpeningUsesAnAttempt | extensions/sprint/ship-engine.ts:210-214 | an event that opens an attempt counts it and stays within the budget |
| ShipHistory.AttemptsAreBounded | extensions/sprint/ship-engine.ts:188-215 | in any order of events and from any state no more attempts are opened than the budget has left |
| ShipHistory.RepairsAreBounded | scripts/task-011-three-lane-afk-smokes.ts:329-359 | with budget b the first b - 1 change requests go to a fix and the b-th stops the run |
| ShipHistory.ApprovalSurvivesLaterWork | extensions/sprint/ship-engine.ts:474-495 | after any events without a review an approved run is still deliverable exactly when no failed check is on record and, text-only, no code |
| ShipHistory.ApprovalSurvivesOneCompletion | extensions/sprint/ship-engine.ts:267-307 | one later coder completion keeps it so exactly when it reports no failed check and, text-only, no code; its files are on record |
| ShipStanding.EventsExplain | extensions/sprint/ship-engine.ts:92-101 | whatever state an event meets, it leaves stage, next action and stop condition in agreement with evidence, verdict, budget and confirmations |
| ShipStanding.RunsAreExplained | extensions/sprint/ship-engine.ts:474-495 | so does every created run: a run in repair has an open change request and an attempt left; a blocked one names a stop condition, and an exhausted budget, failed checks, missing gates, missing evidence and a report-only stop hold of its state |
| ShipStanding.StopsNameTheirEvent | extensions/sprint/ship-engine.ts:92-101 | the other stop conditions name the event: a refused finalization, an unauthorised remote action, a broader risk or mark, empty evidence, work or choices out of turn; and when finalization and evidence are refused |
| ShipStanding.RemoteActionsAreDenied | extensions/sprint/ship-engine.ts:463-468 | neither command nor tool grants a permission and no event adds one, so every remote action of every created run is refused |
| ShipCommand.ShipRunFiles.TaskShip | extensions/sprint/command.ts:246-321 | the command's checks, in their order, and the state it writes |
| ShipCommand.FindOption | extensions/sprint/command.ts:261-264 | the option found is the first of its name |
| ShipStart.CommandStartsIff | extensions/sprint/command.ts:246-321 | when the command line starts a run, in its own words: `--afk`, a task, a lane that may start (a sprint over its open gate, a hotfix with kind and scope, debug), an unused safe id; the run is then fresh, of that lane and kind, and no other run is touched |
| ShipStart.CommandBudgetIs | extensions/sprint/command.ts:246-321 | its budget is the given positive number without its fraction, at least one, and otherwise three |
| ShipStart.ToolStartsIff | extensions/sprint/ship-tools.ts:253-325 | the same for the tool, which also refuses a debug run with an unknown recommendation |
| ShipStart.ToolFindings | extensions/sprint/ship-tools.ts:253-325 | the words of the tool that name a debug run's recommended and selected lanes |
| ShipStart.BudgetsAre | extensions/sprint/ship-state.ts:192-261 | the budget of a created run and of one the tool starts: the given number without its fraction, at least zero, and three for what is no finite number |
| ShipCommand.CommandBudgetIsPositive | extensions/sprint/command.ts:290-294 | whatever the command line says, the engine starts with an integer budget of at least one |
| ShipCommand.ToolBudgetIff | extensions/sprint/ship-state.ts:192-261 | a run started by the tool has a positive budget exactly unless a finite number below one was given |
| ShipCommand.RunsAreAuthorised | extensions/sprint/command.ts:296-319 | every run with confirmed gates was created by an act that read an open implementation gate |
| ShipCommand.DeliveredSprintsWerePlanned | extensions/sprint/command.ts:296-319 | a delivered full sprint, after any commands, tool calls and events, was created over a planning record of non-tiny scope with all four flags set and no invalidation |
| LanePolicy.EvaluateLanePolicy | extensions/sprint/lane-policy.ts:184-466 | the decision's codes, status, reviewer and evidence flags are exactly those the request determines: each of the 21 codes by the fields that raise it, with the default thresholds 2, 50, 1 and 2, and the status by the codes |
| LanePolicy.Decision.TextEvidence | extensions/sprint/lane-policy.ts:263-302 | drops the reviewer exactly for a classified change with references, evidence and no code path |
| LanePolicy.Decision.HotfixLane | extensions/sprint/lane-policy.ts:304-322 | combines both, with the reviewer flag of the text check |
| LanePolicy.Decision.Finalize | extensions/sprint/lane-policy.ts:396-423 | promotes exactly when there is a code and every code is a promotion trigger |
| LanePolicy.StatusIsUnique | extensions/sprint/lane-policy.ts:396-423 | a request has one status |
| LanePolicy.EvidenceOnlyIff | extensions/sprint/lane-policy.ts:263-302 | a hotfix is cleared without reviewer exactly when it is reviewer-free, asks no unauthorised remote action and meets no promotion trigger |
| LanePolicy.FewerFilesStayCleared | extensions/sprint/lane-policy.ts:217-302 | dropping files from a cleared change keeps it cleared |
| LanePolicy.EngineAgreesWithPolicy | extensions/sprint/ship-engine.ts:225-237 | on the same files and references the supervisor skips review exactly when both lists name something, a check passed and the policy sees no code |
| LanePolicy.DebugMayImplementIff | extensions/sprint/lane-policy.ts:324-371 | a debug session may implement exactly with a diagnosis, a known recommendation and a selected implementing lane |
| LanePolicy.EngineIsStricterInDebug | extensions/sprint/ship-engine.ts:188-204 | for a debug session that wants to implement, policy and supervisor answer alike exactly when the policy refuses |
| LanePolicy.ToolBlocksFullSprints | extensions/sprint/ship-tools.ts:100-126 | the classification tool passes no confirmations, so every full sprint is blocked, with all three of its codes |
| LanePolicy.ToolOnDebugIff | extensions/sprint/ship-tools.ts:100-126 | which debug sessions the classification tool lets through; the policy would moreover refuse an unknown selected lane, which the tool drops |
| LanePolicy.UnlistedClassPasses | extensions/sprint/ship-tools.ts:112-112 | an unlisted text class has the same status as "docs" |
| LanePolicy.TriggersAreHonouredIff | extensions/sprint/lane-policy.ts:319-321 | a request is promoted exactly when a trigger is raised, no unauthorised remote action is asked for, and a classified text change names references and evidence; otherwise a triggered request is blocked |
| LanePolicy.OversizedWithoutRefsIsBlocked | extensions/sprint/lane-policy.ts:319-321 | a failing case: an oversized text change without references is blocked, although its promotion trigger is raised |
| Approval.NormalizingKeepsWords | extensions/workflow/planning-state.ts:304-336 | trimming and dropping closing punctuation neither hide nor create a whole-word phrase |
| Approval.SaysIff | extensions/workflow/planning-state.ts:346-372 | a phrase is said exactly where it stands in the text with no word character on either side |
| Approval.ConfirmationsIff | extensions/workflow/planning-state.ts:346-372 | which stage a text confirms, in the phrases it says: none with a negation, a stage by its strong phrases, the sprint's first, and otherwise by its words beside a generic approval and without the other's |
| Approval.ConfirmationsNameTheirStage | extensions/workflow/planning-state.ts:346-372 | an explicit confirmation has no negation and names its own stage, in strong words or with a generic approval and not the other stage |
| Approval.NegationWins | scripts/task-006-prd-planning-gate-smokes.ts:358-408 | normalising keeps negations, and a text with a negating word or a contraction anywhere confirms nothing |
| Approval.NegatingWordWins | scripts/task-006-prd-planning-gate-smokes.ts:358-408 | a negating word between spaces suffices, whatever stands around it |
| Approval.StraightenedContractions | extensions/workflow/planning-state.ts:337-338 | with its apostrophes typed straight a text is contracted exactly where it was contracted with either apostrophe |
| Approval.ApostrophesMatterIff | extensions/workflow/planning-state.ts:304-368 | for every text: typed straight it confirms the same, unless it has a contraction with a typographic apostrophe, which then negates it |
| Approval.CurlyNegationConfirms | extensions/workflow/planning-state.ts:337-338 | a text for which the two differ: it negates and confirms |
| Planning.GatesIff | extensions/workflow/planning-state.ts:384-479 | both gates in terms of the record, with and without the tiny bypass |
| Planning.GatesSayWhy | extensions/workflow/planning-state.ts:384-479 | a gate is open exactly when it gives no code, and a closed one names exactly the missing flags and the pending invalidation |
| PlanningWords.SprintGateSaysCodes | extensions/workflow/planning-state.ts:384-424 | the sprint gate's codes: one for each of its three flags that is missing, its own for a pending invalidation, and no other |
| PlanningWords.ImplementationGateSaysCodes | extensions/workflow/planning-state.ts:426-479 | the implementation gate's codes, over all four flags |
| PlanningWords.TinyGatesSay | extensions/workflow/planning-state.ts:384-479 | without a record, or on tiny work, a gate gives one code and opens exactly for the asked bypass without a pending invalidation |
| PlanningWords.RecordAfter | extensions/workflow/planning-state.ts:217-298 | the record after a write, an invalidation of either kind and a scope change, flag by flag |
| Planning.FlagHistory | extensions/workflow/planning-state.ts:217-298 | a flag is set exactly when some write set it and nothing since cleared it |
| Planning.InvalidationHistory | extensions/workflow/planning-state.ts:217-267 | an invalidation is pending exactly when one came after the last write of any flag |
| Planning.ImplementationGateHistory | scripts/task-006-prd-planning-gate-smokes.ts:272-299 | over any run the implementation gate is open without bypass exactly when the scope is not tiny and each of the four flags was written after everything that clears it |
| Planning.NothingInvalidatedSince | extensions/workflow/planning-state.ts:248-298 | after a kept implementation confirmation there was no invalidation of either kind and no promotion |
| Planning.SprintGateHistory | extensions/workflow/planning-state.ts:384-424 | over any run the sprint gate is open without bypass exactly when the scope is not tiny, each of its three flags was written after everything that clears it, and no invalidation came after the last write of any flag |
| Planning.SprintGateForgetsArchitecture | scripts/task-006-prd-planning-gate-smokes.ts:467-477 | rewriting any set flag reopens the sprint gate after an architecture invalidation |
| Planning.DowngradeOpensBypass | extensions/workflow/planning-state.ts:269-298 | after a reclassification to tiny the bypass opens the implementation gate exactly when no invalidation was pending |
| Planning.LogReproducesFlags | extensions/workflow/planning-state.ts:217-298 | in every run replaying the transition log gives the flags |
| PlanningTools.GatesReadWhatToolsWrite | extensions/workflow/planning-gate-runtime.ts:46-115 | a gate looks at a room with a state file exactly when a tool call asked the same way would write it |
| PlanningTools.OpenGateHasState | extensions/workflow/planning-gate-runtime.ts:183-205 | a gate is open exactly when the room the tools resolve to has a readable record with the gate's flags and no invalidation |
| PlanningTools.AcceptedWritesAreBacked | scripts/task-006-prd-planning-runtime-smokes.ts:151-191 | an accepted `set_flag` confirms only the stage its text names, each flag once |
| PlanningTools.OneStagePerCall | extensions/workflow/planning-tools.ts:288-359 | no single call confirms both stages |
| PlanningWords.FlagCallSays | extensions/workflow/planning-tools.ts:304-349 | a call that sets flags is taken exactly when each name is one of the four words and each confirmation it sets is permitted by its text; it writes each named flag once, with the value given at its first mention, true by default |
| PlanningWords.ToolRoomFollowsPointers | extensions/workflow/planning-tools.ts:99-152 | the room a call works on: the one asked for, else the planning pointer's existing room, else, unless that pointer is unusable, the workflow pointer's |
| PlanningWords.CreateRoomFollowsPointers | extensions/workflow/planning-tools.ts:107-122 | a new record's room: the one asked for, else the workflow pointer's, else the planning pointer's |
| PlanningCalls.FlagsWereConfirmed | extensions/workflow/planning-tools.ts:288-359 | over any tool calls on any rooms, a flag that stands in a room was set there by an accepted call, in words naming its stage where it has one, and not cleared since |
| PlanningCalls.OpenGateWasConfirmedInWords | extensions/workflow/planning-gate-runtime.ts:195-205 | over any tool calls on any rooms and any moves of the workflow pointer, an open implementation gate looks at a room whose four flags were so set, whose implementation was confirmed in words without negation, and which nothing has unsettled since |
| PlanningStore.ApplyFlagUpdates | extensions/workflow/planning-state.ts:217-227 | the update loop leaves the flags, rows and cleared invalidation of the specified write |
| PlanningStore.CollectUpdates | extensions/workflow/planning-tools.ts:288-359 | the loop over the names returns the updates or the first refusal |
| PlanningStore.PlanningFiles.Create | extensions/workflow/planning-state.ts:198-215 | creates a fresh record in an unused room or changes nothing |
| PlanningStore.PlanningFiles.SetFlag | extensions/workflow/planning-tools.ts:288-359 | writes all updates at once to the resolved room, or is refused and changes nothing |
| PlanningStore.PlanningFiles.Invalidated | extensions/workflow/planning-state.ts:248-267 | clears and logs exactly the flags of the kind |
| PlanningStore.PlanningFiles.SetScopeClassification | extensions/workflow/planning-state.ts:269-298 | changes the scope and, on a promotion, clears the confirmations |
| PlanningStore.GatesFollowTheLastWrite | extensions/workflow/planning-pointer.ts:50-59 | after a write an unaddressed gate looks at the room just written |
| LedgerRuns.MarkChangesExactlyOne | extensions/workflow/delivery/ledger.ts:444-473 | an accepted mark gives the one event with the id the asked status, the new warnings behind its old ones, the trimmed time and, when superseded, the trimmed superseder; every other field and event stays |
| LedgerRuns.MarkIsAcceptedIff | extensions/workflow/delivery/ledger.ts:444-473 | a mark is accepted exactly when id and time are given, exactly one event has the id, a superseding event is named where it must be, and no free-form import is to be accepted |
| LedgerMarks.MarksDecideQueries | extensions/workflow/delivery/ledger.ts:455-560 | an event of the run marked accepted is accepted evidence of its kind, marked recorded it is current and not accepted, marked rejected or superseded it is in no query |
| LedgerMarks.AppendAddsOne | extensions/workflow/delivery/ledger.ts:206-270 | an accepted append puts one event behind the others, every field as asked for, under an id no other has |
| LedgerMarks.GeneratedIdIs | extensions/workflow/delivery/ledger.ts:120-133 | an append without an id gets one from its kind's word, its run and the next number, or the one after the number given |
| LedgerMarks.UnstructuredImportIsRejected | extensions/workflow/delivery/legacy-import.ts:203-280 | the record of an artifact without structured content ends rejected and in no query, and nothing else is added |
| LedgerMarks.StructuredImportIsMirrored | extensions/workflow/delivery/legacy-import.ts:203-377 | a structured artifact is one recorded import and, in order, one recorded legacy event for each thing it holds |
| LedgerMarks.CurrentIff | extensions/workflow/delivery/ledger.ts:537-555 | an event is current evidence exactly when it is in the ledger, of its run and the kind, and neither superseded nor rejected |
| LedgerMarks.AcceptedIff | extensions/workflow/delivery/ledger.ts:557-560 | an event is accepted evidence exactly when it is moreover accepted and not a free-form import |
| LedgerRuns.MirrorAdds | extensions/workflow/delivery/legacy-import.ts:294-377 | mirroring structured legacy content only adds legacy, unaccepted events |
| LedgerRuns.ImportOnlyAddsLegacy | extensions/workflow/delivery/legacy-import.ts:203-280 | an import keeps every old event and adds legacy events none of which is accepted |
| LedgerRuns.RunSound | scripts/task-001-delivery-ledger-smokes.ts:756-966 | appends, imports and marks keep a sound ledger sound |
| LedgerRuns.ReachableLedgersAreSound | scripts/task-001-delivery-ledger-smokes.ts:178-183 | every reachable ledger has unique ids, one run throughout and no accepted free-form import |
| LedgerIds.GeneratedIdsAreDistinct | extensions/workflow/delivery/ledger.ts:120-127 | a generated id determines its kind and number, whatever the run id contains |
| LedgerIds.GeneratedIdsNeverCollide | extensions/workflow/delivery/ledger.ts:120-133 | a ledger fed only by generated ids, imports and marks never refuses an append as a duplicate |
| LedgerIds.DuplicateIff | extensions/workflow/delivery/ledger.ts:245-270 | an append without id is refused as a duplicate exactly when the next generated id of its kind is taken |
| LedgerIds.SquattingLasts | extensions/workflow/delivery/ledger.ts:245-473 | no mark, no import and no generated append frees a taken next id |
| LedgerIds.AppendIsAcceptedIff | extensions/workflow/delivery/ledger.ts:206-270 | an append is accepted exactly when its run, times and id fit the ledger and it does not accept a free-form import |
| LedgerIds.SquattingEndsIff | extensions/workflow/delivery/ledger.ts:245-473 | an operation frees it exactly when it is an acceptable append of the kind with an id or number of its own other than the following one, which is not taken either |
| LedgerIds.SquattingLastsOverRuns | extensions/workflow/delivery/ledger.ts:245-473 | no run of marks, imports and generated appends frees it |
| LedgerQueries.FindCurrentIsExact | extensions/workflow/delivery/ledger.ts:537-555 | the current events are exactly the qualifying ones with their multiplicity, sorted by time, ties in ledger order |
| LedgerQueries.FindAcceptedIsExact | extensions/workflow/delivery/ledger.ts:557-560 | on any ledger, edited by hand or not, exactly the accepted same-run events of the kind that are not free-form imports |
| LedgerQueries.CountByKind | extensions/workflow/delivery/ledger.ts:129-133 | the counting loop counts the events of the kind |
| LedgerQueries.AppendEvent | extensions/workflow/delivery/ledger.ts:245-270 | append with its duplicate search is the specified append |
| LedgerQueries.MarkEventStatus | extensions/workflow/delivery/ledger.ts:444-473 | the one-pass loop is the specified mark, duplicates and missing ids included, and what it accepts is marked field by field as asked |
| LedgerQueries.FindCurrentEvent | extensions/workflow/delivery/ledger.ts:521-535 | returns a current event than which none is later, or nothing when there is none |
| MatrixRoundTrip.EntryReadsBack | extensions/workflow/architecture/evidence-matrix.ts:108-241 | a written well-formed row reads back as itself without a complaint |
| MatrixRoundTrip.MatrixReadsBack | extensions/workflow/architecture/evidence-matrix.ts:243-261 | a written matrix of well-formed rows reads back as itself |
| MatrixRoundTrip.ReadMatrixIsGood | extensions/workflow/architecture/evidence-matrix.ts:243-261 | whatever the file holds, the rows kept are well formed, and writing them reads back clean |
| MatrixWords.RowIsRead | extensions/workflow/architecture/evidence-matrix.ts:74-241 | which JSON rows are read and which without a complaint, in the words of their fields, and what a row read has: its criterion, kind, prompt-only levels, caveat and whether its evidence asks for a run or for people |
| MatrixWords.RolesOfRow | extensions/workflow/architecture/evidence-matrix.ts:47-54 | a row asks for exactly the roles its words name |
| MatrixWords.LockedIffRowsLock | extensions/workflow/architecture/evidence-matrix.ts:374-481 | a ready plan's matrix passes exactly when the JSON under its key is a list of whole rows, one for each criterion and none besides, each prompt-only row explained and no runtime behaviour enforced by a prompt alone |
| MatrixWords.ReadyFilesLock | scripts/task-002-architecture-matrix-smokes.ts:342-384 | so says the file of every ready plan that any calls can reach |
| MatrixRules.ValidateCoverage | extensions/workflow/architecture/evidence-matrix.ts:374-423 | reports nothing exactly when every criterion has exactly one row and no row is extra, and says which criterion is duplicated, extra or uncovered |
| MatrixRules.Duplicates | extensions/workflow/architecture/evidence-matrix.ts:374-423 | finds exactly the criteria named by two rows |
| MatrixRules.ValidateMatrix | extensions/workflow/architecture/evidence-matrix.ts:457-481 | reports nothing exactly when a ready plan meets coverage, prompt-only and structure rules, or a draft the structure rules |
| PlanStore.PlanFiles.AssertReadyMatrix | extensions/workflow/architecture/store.ts:53-79 | the lock passes exactly drafts and ready plans that read clean and validate |
| PlanStore.PlanFiles.Create | extensions/workflow/architecture/store.ts:264-328 | writes the checked plan or rejects and changes nothing |
| PlanStore.PlanFiles.Update | extensions/workflow/architecture/store.ts:376-436 | writes the patched plan or rejects and changes nothing |
| PlanStore.PlanFiles.UpdatePhase | extensions/workflow/architecture/store.ts:342-374 | writes the phase under the lock or rejects and changes nothing |
| PlanCalls.CallsRewriteOnePlan | extensions/workflow/architecture/store.ts:264-436 | an accepted call rewrites one plan, which reads back as written; a rejected one leaves the store as it was |
| PlanCalls.PhaseUpdateIs | extensions/workflow/architecture/store.ts:342-374 | a phase update is accepted exactly for a draft or a locked plan, and gives the named phase the asked status and note; the other phase and the rest of the plan stay |
| PlanCalls.UpdateIs | extensions/workflow/architecture/store.ts:376-436 | an update writes each part that is given, trimmed, and keeps each that is not |
| PlanCalls.UpdateIsAcceptedIff | extensions/workflow/architecture/store.ts:376-436 | it is accepted exactly when texts and criteria are left, a replacement matrix reads without complaints, and a ready plan is locked |
| PlanCalls.CreateIs | extensions/workflow/architecture/store.ts:264-328 | a plan is created exactly for a safe id, texts, criteria and a clean matrix, locked if ready, and is as asked with both phases not started |
| PlanCalls.StatusIsTheLast | extensions/workflow/architecture/store.ts:264-436 | after any calls a phase has the status of the last accepted call that set it |
| PlanCalls.OpenGateFollowedItsPhases | extensions/workflow/architecture/gate.ts:42-125 | over any run: an open gate to the second phase means the first was last set to approved; a reviewer meets a phase last set to completed, a coder none last set to approved |
| PlanLock.PlanReadsBack | extensions/workflow/architecture/store.ts:330-340 | a stored plan reads back as itself |
| PlanLock.AcceptedCallsWriteGoodFiles | extensions/workflow/architecture/store.ts:264-436 | every accepted call, on any file however damaged, writes a file that reads clean and, if ready, is locked |
| PlanLock.StoreIsLocked | scripts/task-002-architecture-matrix-smokes.ts:342-384 | from an empty store after any calls every ready plan covers each criterion exactly once with no runtime behaviour enforced by prompt alone |
| PlanLock.GateTrustsTheStore | extensions/workflow/architecture/gate.ts:42-125 | a plan of such a store is never rejected for its matrix |
| PlanLock.GateIff | extensions/workflow/architecture/gate.ts:42-125 | the phase gate opens exactly for a ready, locked plan without questions and with its phases in step |
| PlanLock.DamagedPlansStayDraft | scripts/task-002-architecture-matrix-smokes.ts:386-480 | while rows are damaged a call without a replacement matrix is accepted only as a draft, and the gate is closed for every phase and agent |
| PlanLock.DraftingForgetsDamage | extensions/workflow/architecture/store.ts:376-436 | the two updates to draft and back to ready, criteria unchanged, succeed exactly when the surviving rows satisfy the lock |
| PlanLock.RowsSurvive | extensions/workflow/architecture/store.ts:342-436 | no calls but a replacement change which rows of a plan survive reading |
| PlanLock.ReadyWithoutReplacementIff | extensions/workflow/architecture/store.ts:264-436 | some calls without a replacement matrix make a plan ready exactly when its surviving rows are some, name no criterion twice and keep the prompt-only rules |
| PlanLock.DamagedButReady | extensions/workflow/architecture/store.ts:376-436 | a failing case: one well-formed row and one that cannot be read |
| CanonicalEvidence.OnlyTheEnvelopeCounts | extensions/workflow/delegate/completion-evidence-gate.ts:98-207 | two results that agree at the envelope locations give the same packet, and a sidecar shuts out the details |
| CanonicalEvidence.LegacyFieldsAreIgnored | scripts/task-002-canonical-delegate-evidence-smokes.ts:386-448 | adding or changing any other sidecar field changes nothing |
| CanonicalEvidence.SidecarShutsOutDetails | extensions/workflow/delegate/completion-evidence-gate.ts:161-195 | a sidecar without an envelope gives no evidence, whatever the details hold |
| CanonicalEvidence.LegacyEventsAreIgnored | extensions/workflow/delegate/canonical-evidence.ts:157-181 | a non-canonical event anywhere in the list neither becomes the payload nor displaces it |
| CanonicalEvidence.LegacyEventsUnderEventAreIgnored | extensions/workflow/delegate/canonical-evidence.ts:214-218 | the same when the ledger is the envelope's `event`, whatever stands beside it |
| CanonicalEvidence.PayloadsAreCanonical | extensions/workflow/delegate/canonical-evidence.ts:184-343 | at any depth, a typed payload is only found together with canonical provenance |
| CanonicalWords.PlacesInOrder | extensions/workflow/delegate/canonical-evidence.ts:184-269 | where an object is read: at its `evidence`, then at its `done.evidence`, then, without a sidecar marker, at itself; in each place `coderEvidence` and `reviewerEvidence` come first and an `event` is followed, and the first place that has either decides |
| CanonicalWords.SingleEvents | extensions/workflow/delegate/canonical-evidence.ts:271-306 | a single event gives its `payload`, as coder or reviewer by its `kind`, exactly when its `provenance` is the word `canonical` |
| CanonicalWords.LedgersSay | extensions/workflow/delegate/canonical-evidence.ts:308-332 | a list of events with textual kinds gives, for coder and reviewer, the payload of its first canonical event of that kind |
| CanonicalWords.GatePlaces | extensions/workflow/delegate/completion-evidence-gate.ts:98-207 | where the gate looks: the sidecar's `evidence`, or its `done.evidence` where that is no object; without a sidecar the same places of the details, the first that has evidence; else nothing |
| CanonicalEvidence.LedgerIsReadIff | extensions/workflow/delegate/canonical-evidence.ts:103-119 | a list of events counts exactly when every entry has a textual kind and some canonical event has a payload; otherwise nothing is found |
| CanonicalEvidence.MalformedEventHidesTheLedger | extensions/workflow/delegate/canonical-evidence.ts:103-119 | one entry without a textual kind, and extraction and gate find nothing |
| CanonicalEvidence.MarkerInsideTheEnvelopeHidesIt | extensions/workflow/delegate/canonical-evidence.ts:138-146 | an envelope's own payloads are read, by extraction and gate, exactly when no sidecar marker stands in it |
| CanonicalEvidence.LegacySingleEventIff | extensions/workflow/delegate/canonical-evidence.ts:245-284 | a legacy single event is read as canonical exactly when it carries evidence fields of its own |
| CoderGate.FindSpeaker | extensions/workflow/delegate/completion-evidence.ts:332-409 | finds the strongest row of a criterion, the first among equals, or that there is none |
| CoderGate.Lookup | extensions/workflow/delegate/completion-evidence.ts:332-409 | the lookup holds each command's last recorded run |
| CoderGate.JudgeEntry | extensions/workflow/delegate/completion-evidence.ts:301-330 | an entry is covered exactly when the row that speaks for it satisfies it |
| CoderGate.Evaluate | extensions/workflow/delegate/completion-evidence.ts:332-409 | accepts exactly a packet without completion flags, with files and commands when asked, and every entry covered |
| CoderGate.NoCanonicalNoAdvance | scripts/task-002-canonical-delegate-evidence-smokes.ts:979-1094 | without a canonical coder payload a matrix-gated plan is refused, however strong the legacy evidence |
| CoderGate.LegacyEventsDoNotMoveTheGate | scripts/task-002-canonical-delegate-evidence-smokes.ts:1216-1257 | a legacy event anywhere in a ledger offered as evidence, in sidecar or details, never changes the gate's verdict, however strong its payload |
| CoderGate.ProseAddsNoVerdict | extensions/workflow/delegate/completion-evidence.ts:137-198 | the final text alone neither raises nor clears a completion flag that decides |
| CoderGate.VerdictIsTheEnvelopes | scripts/task-002-canonical-delegate-evidence-smokes.ts:1342-1388 | the verdict depends on plan, options, source and envelope only |
| CoderGate.LastRunDecides | extensions/workflow/delegate/completion-evidence.ts:332-409 | dropping every record that a later one of the same command supersedes leaves one record per command and never changes the verdict |
| GatePayload.GateOpensIff | extensions/workflow/delegate/completion-evidence.ts:137-409 | a matrix-gated plan advances exactly when no lightweight exception is asked for and the canonical coder payload, as JSON, says so: no completion flag is true, a well-formed row is there, and for each entry the deciding row (strongest `strength`, first among equals) has the words the entry needs |
| GatePayload.RunGate | extensions/workflow/delegate/completion-evidence-gate.ts:266-356 | the gate as it runs, extraction and normalization included, decides just that |
| GatePayload.AdvanceMeansRunsPassed | extensions/workflow/delegate/completion-evidence.ts:301-330 | on the payload: for each criterion that asks for a run there is a row with `sufficient` and one of the five runnable kinds, some command it names has `passed` in its last well-formed record, and none has `failed` or `skipped` there |
| GatePayload.LastRecordIsRead | extensions/workflow/delegate/completion-evidence.ts:217-229 | what a command last did is what its last well-formed record states in `outcome`, or in `result` where `outcome` is absent or null |
| Json.TextsAreTheStrings | extensions/workflow/delegate/completion-evidence.ts:108-113 | a list of texts is read as its strings, trimmed, without the blank ones |
| ReviewerMemo.DeriveRoles | extensions/workflow/delegate/reviewer-roles.ts:240-334 | the loops build the specified role list |
| ReviewerMemo.Sort | extensions/workflow/delegate/reviewer-roles.ts:800-881 | evaluations go to their buckets in order, and it is known whether any stands in the way |
| ReviewerMemo.SortCaveats | extensions/workflow/delegate/reviewer-roles.ts:800-881 | the caveat lists hold, in order, exactly the weak, prompt-only, risky and provisional evaluations |
| ReviewerMemo.MissingRoles | extensions/workflow/delegate/reviewer-roles.ts:800-881 | finds exactly the required roles without an evaluation |
| ReviewerMemo.Consolidate | extensions/workflow/delegate/reviewer-roles.ts:800-881 | the memo is approved exactly when every evaluation clears and every required role has one, and lists evaluations and missing roles accordingly |
| ReviewerMemo.BuildMemo | extensions/workflow/delegate/reviewer-roles.ts:883-908 | derive, evaluate and consolidate: approved exactly when every required role's evaluation clears |
| ReviewerProofs.RequiredRoleClearsIff | README.md:104-112 | a required role clears exactly when the typed review object on the canonical envelope has `APPROVED` as `effectiveVerdict`, or as `verdict` where the effective one is no token, states no blocker, its reviewer did not fail, and its prose makes no prompt-only argument on a runtime matter |
| ReviewerProofs.VerdictSays | extensions/workflow/delegate/reviewer-roles.ts:602-640 | an evaluation's verdict is the token of the review object, effective before plain; where it has none a rejection read from the text counts and an approval does not |
| ReviewerProofs.EvaluationSays | extensions/workflow/delegate/reviewer-roles.ts:652-768 | which caveats and blockers an evaluation lists, and its effective verdict, for required and other roles |
| ReviewerProofs.NoProseApproves | scripts/task-002-canonical-delegate-evidence-smokes.ts:867-977 | no final text and no verdict read from it approves what the canonical review does not |
| ReviewerProofs.ProseFlipsIff | extensions/workflow/delegate/reviewer-roles.ts:610-770 | prose turns a role into a clearing one exactly by dropping a prompt-only argument from a canonically approved review |
| ReviewerProofs.OnlyEnvelopesAreReviewed | extensions/workflow/delegate/reviewer-roles.ts:513-546 | fields beside the envelopes have no part in the approval |
| ReviewerProofs.RequiredRolesIff | scripts/task-004-reviewer-roles-smokes.ts:169-200 | the required roles are those of the matrix, docs/config when in scope, and the default set, each once; goals have no part in it |
| ReviewerProofs.TargetsAreTheirRows | extensions/workflow/delegate/reviewer-roles.ts:240-334 | a required role is judged on the criteria of the rows that name it, and where none does on the first five |
| ReviewerProofs.MemoIsApprovedIff | scripts/task-004-reviewer-roles-smokes.ts:508-556 | end to end, on the review objects: approved exactly when each required role has a result whose object says `APPROVED` without a blocker, from a reviewer that did not fail, and that is not vetoed |
| ReviewerProofs.NoRolesNoReview | extensions/workflow/delegate/reviewer-roles.ts:240-334 | no role is required exactly when no row asks for one, docs/config is out of scope and the caller's default set, or without one the matrix, is empty; the memo is then approved without a review |
| ReviewerProofs.GoalsDoNotMatter | scripts/task-004-reviewer-roles-smokes.ts:169-200 | the caller's goals change neither the required roles nor the verdict |
| ReviewerProofs.VerdictsPartition | extensions/workflow/delegate/reviewer-roles.ts:800-881 | every evaluation is under exactly one verdict; in an approved memo all are approvals and none is provisional |
| ReviewerProofs.OrderDoesNotMatter | scripts/task-004-reviewer-roles-smokes.ts:681-756 | two consolidations of the same evaluations in another order agree on the verdict, the missing roles and, up to order, every list |
| DebugLane.CountCompleted | extensions/sprint/debug-escalation.ts:143-167 | counts the closed items of an area besides one |
| DebugLane.DebugItems.Create | extensions/sprint/debug.ts:389-407 | appends an open item under a fresh id, or nothing for a bad title |
| DebugLane.DebugItems.RunDone | extensions/sprint/debug-tooling.ts:45-75 | judges first, then reports the rules, or completes the item; every other item stays |
| DebugLane.DebugItems.Note | extensions/sprint/debug.ts:409-430 | rewrites one item's body, never a promoted one's |
| DebugLane.DebugItems.Promote | extensions/sprint/debug.ts:454-495 | promotes one item, once |
| DebugRules.RulesSay | extensions/sprint/debug-escalation.ts:119-200 | which escalation rules a completion meets, each by the parameter or text that raises it: more than 2 files, 50 lines or 1 path, an architecture change, missing evidence, two other closed items of the area |
| DebugRules.CompletionSays | extensions/sprint/debug-tooling.ts:45-75 | a completion reports the rules it meets and changes nothing, or makes the first item with the id done, its body tidied and the evidence noted |
| DebugRules.NotesAndPromotionsSay | extensions/sprint/debug.ts:409-495 | a note changes one unpromoted item's body, a promotion one item's status and body, and nothing else |
| DebugRules.CreationSays | extensions/sprint/debug.ts:389-407 | a valid title adds one open item behind the others under an id higher than theirs |
| DebugAreas.InferenceSays | extensions/sprint/debug-escalation.ts:134-141 | the one area inferred from title and body in lower case, as decompositions of the text: two words, what may stand between them, and what stands around them |
| DebugAreas.FirstBodySays | extensions/sprint/debug.ts:379-387 | a new item's body has its summary and, under the notes, the first note with its time, if there is one |
| DebugChain.StrictCompletionWasBelowThreshold | scripts/task-007-debug-escalation-smokes.ts:142-161 | a strict completion had fewer than two other closed items in the area it was judged by |
| DebugChain.CompletionKeepsBoundIff | extensions/sprint/debug-tooling.ts:45-75 | a completion, of an open or a done item, keeps at most two done items per area exactly when the area its item lands in had room for it; a strict one always when that is the area it was judged by |
| DebugChain.NoteKeepsBoundIff | extensions/sprint/debug.ts:409-430 | a note keeps the bound exactly when it is refused, meets no done item, or leaves the item in an area with room for it |
| DebugChain.ChainIsBoundedIff | extensions/sprint/debug-tooling.ts:45-75 | any run stays within the bound throughout exactly when each of its steps had room |
| DebugChain.ChainIsBounded | extensions/sprint/debug-tooling.ts:45-75 | with areas kept, no mix of creates, notes, promotions and strict completions puts more than two done items in an area |
| DebugChain.FixedAreasAreBounded | extensions/sprint/debug-tooling.ts:45-75 | the same when edits never move an item's inferred area and completions name none |
| DebugChain.EvidenceBreaksBound | extensions/sprint/debug.ts:432-452 | evidence that names a full area puts a third done item in it |
| DebugChain.EvidenceEscapesEveryBound | extensions/sprint/debug.ts:432-452 | whatever the text functions: if evidence moves a fresh item of some title from no area into one, then for every n a run of strict completions puts n done items there |
| DebugText.SourceTextMoves | extensions/sprint/debug-escalation.ts:134-141 | the lane's own body, note and inference functions do that, for every title without a `w` in it and the area's name as evidence |
| DebugText.SourceTextEscapesEveryBound | extensions/sprint/debug.ts:379-452 | so with them for every n there is such a run |
| AutoBrief.OneUnitMore | src/index.ts:46-50 | one more code unit adds its own bytes, or one when it completes a surrogate pair |
| AutoBrief.BytesAreUtf8 | src/index.ts:31-56 | the byte length is that of the text's code points in UTF-8, a pair of surrogates as one of them and a lone one as U+FFFD |
| AutoBrief.PrefixesGrow | src/index.ts:46-50 | byte length grows strictly with every code unit of a prefix, lone surrogates and pairs included |
| AutoBrief.BytesAdd | src/index.ts:55-55 | joining texts adds their bytes unless the join completes a pair |
| AutoBrief.SuffixFacts | src/index.ts:29-45 | the chosen suffix has 60 or 3 bytes and completes no surrogate pair |
| AutoBrief.TruncateBrief | src/index.ts:31-56 | the result is within the budget; untouched if it fits, else the longest fitting prefix and the suffix, the suffix alone, or nothing |
| AutoBrief.LongestFitIsUnique | src/index.ts:46-50 | there is one longest fitting prefix, and every shorter one fits |
| AutoBrief.Cooldown.Attempt | src/index.ts:100-108 | an attempt goes ahead exactly when none is recorded or the interval has passed, and is then recorded |
| AutoBrief.MapHoldsLastRecorded | src/index.ts:100-108 | the map holds, per key, the time of its last recorded attempt |
| AutoBrief.AttemptGoesAheadIff | src/index.ts:100-108 | over a run, an attempt is recorded exactly when none of its key is or the last is at least the interval ago, and touches no other key |
| AutoBrief.BriefsAreNotWithheld | src/index.ts:100-108 | after every reading there is an attempt on record less than the interval ago |
| AutoBrief.AttemptsKeepApart | src/index.ts:100-108 | recorded attempts of a key are at least the interval apart, even when the clock goes back |
| AutoBrief.RateIsBounded | src/index.ts:100-108 | attempts of a key within a window number at most window / interval + 1, at increasing times |
| AutoBrief.KeysAreIndependent | src/index.ts:100-108 | a key's attempts are those its own clock readings alone would give |

## Left out

- Tool and command registration, child processes, panes, git, the repository index, configuration layering, user interface and rendered Markdown.
- File contents as text: files are values written at once, so torn writes and half-written lines are not modelled; only the room lock is a protocol of steps. An events file that exists and is empty counts as absent.
- The checks of `room_job_start` and `room_send` that the room's directory exists, room and agent id clean-up, topics, summaries, file and test lists, `room_status`, and the active-room pointer that `room_create` writes.
- The lock's time limit: a waiting process may give up at any moment the lock is taken.
- Ship state fields no guard reads: root cause, affected files, risk assessment, notes, blockers, finalization status, report paths; a report rendering that fails. The failure pattern for finalization results adds nothing to the list of passing ones and is not modelled.
- The `reviewerRequired` and `evidenceOnly` members of a `coder_completed` event, which no handler reads.
- `Number(...)` of command-line text is an arbitrary function of the text.
- Planning records: timestamps, actors, sources, evidence texts and artifact paths of a transition row; records that are read with issues.
- The ledger's typed payloads beyond what decides `isFreeFormLegacyImport`, trimming of warnings, and the reading of sidecar shapes by the import adapters: an artifact is given as the events it mirrors.
- LedgerRuns.ImportOnlyAddsLegacy: takes the adapter's reading of an artifact as given, because it depends on free-text shapes.
- The plan file's fields other than status, texts, criteria, questions, phases and matrix; the check of a plan's task and sprint binding.
- Matrix rows passed in memory with unknown kinds or `undefined` members: rows come from JSON, as the tools receive them.
- The coder gate's diagnostics, source precedence and pane transport; rejection texts.
- A reviewer target's evidence list, blocking conditions and goals, which only the reviewer's prompt shows; the texts of weak evidence, caveats and risks beyond there being any.
- ReviewerMemo.BuildMemo: the phrase lists for static-only, prompt-only and unresolved-risk prose and the docs hints are arbitrary predicates, so the results hold for all of them.
- DebugLane.DebugItems.RunDone: the text functions are arbitrary, except in `DebugText`, which has the lane's own inference, bodies and notes but one time stamp for a whole run; the two text hints and line clean-up are arbitrary there too; item ids are numbers, and the finalization text of a completion is not modelled.
- Lane policy texts: blockers, warnings and summaries. One blocker stands with each code.
- AutoBrief.TruncateBrief: does not claim that a surrogate pair is never cut, because the code cuts by code units.
