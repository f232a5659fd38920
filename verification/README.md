# WebInspector control plane: a Dafny model

WebInspector's control plane is a handful of small event-driven machines: a run orchestrator that moves each URL
through its tests, a command protocol between the control plane and the supervisors on the nodes, a buffered channel
under it, staged rollouts with a desired-state loop, interchangeable state stores, enrollment of nodes, an updater
with rollback, and a rate limiter. This project models these machines and proves what they keep over whole runs.

Each imperative source file appears twice. A class holds the source's fields and has a method per operation, written
step by step with the source's branches; its `ensures` ties the new fields to a function of the old ones. The
functions, in a module of their own, are what the lemmas about whole histories speak of: `After(events)` is the state
after a sequence of events, `Valid(events)` says that each event could happen where it does, and the main results are
stated for every such sequence.

| part | modules |
|---|---|
| run orchestrator | `RunState`, `RunOrchestrator`, `RunMoves`, `RunInvariants`, `RunRecords`, `RunSettlement`, `RunAnswers`, `RunOutcome`, `RunProgress` |
| what runs are decided by | `Classification`, `NodeSelection`, `JobIds`, `Versions` |
| final report | `Report`, `ReportAgreement`, `Csv` |
| command protocol | `CommandState`, `Commands`, `DispatchHistory`, `CommandProtocol` |
| channel | `ChannelState`, `Channel`, `ChannelFifo`, `ChannelFallback`, `LongPoll` |
| rollout and reconciler | `RolloutState`, `Rollout`, `Reconciler`, `ReconcilerSafety`, `ReconcilerProgress` |
| stores | `StoreModel`, `StoreHistory`, `SqliteModel`, `JsonModel`, `Stores`, `StoreAgreement` |
| enrollment | `Fingerprints`, `EnrollmentState`, `Enrollment`, `EnrollmentRuns` |
| updater | `UpdaterState`, `Updater` |
| rate limiter | `RateLimit` |

`RunMoves` reduces every operation of the orchestrator to seven small moves; an invariant that the moves keep holds in
every reachable state (`InEveryState`) and from any point on (`FromThenOn`).

Clocks, random ids, secrets, URL normalisation, hash and signature checks, platform steps and the network are
parameters: an event carries the time, the fresh id or the outcome. An `ok` field has the four values the agents
really send: true, false, null and missing.

## What turned out not to hold

- A run of terminal URLs is not always completed. `queueUrl` re-opens a completed run before it normalises the URL, so
  a malformed URL leaves the run in "running" with nothing left to do; `createRun` with a malformed URL after nothing
  but blocked ones does the same. `MalformedUrlStrandsRun` and `MalformedCreationStrandsRun` are concrete runs;
  `RunSettledIff` and `SettledIff` say exactly which calls do this, `RunSettledThroughoutIff` and
  `SettledThroughoutIff` exactly which histories.
- The reconciler's comment "never re-issues a command that is already in flight" is true of updates only. The drain
  step has no guard: `DrainSentTwice`; exactly when a pass re-issues a drain is `DrainReissuedIff`.
- A fleet at its desired versions may still be sent commands: `PassIdleIff` has the exact condition, which includes
  drain states that disagree and a pass that gives up on an unregistered bundle.
- A session that has not said hello is listed without a name and with no versions, so a pass may pick it and throw
  (`UnnamedThrows`); exactly when a pass completes is `PassCompletesIff`. A drain flag for a node called "undefined" is
  taken for one on such a session (`UndefinedIsUnnamed`).
- The canary size bounds a batch, not the nodes in flight: `CanaryExceededIff`. A batch may name a node twice when two
  nodes share a name: `OncePerBatchIff`.
- A command does not always leave the in-flight table: `StuckSlot` is a history whose slot no continuation frees. A slot
  is free iff a terminal report has arrived (`SlotFreedIff`), and can become free iff the command was pushed
  (`FreeableIff`).
- The server's long-poll log is not always a prefix of the sends with repeats in place: a copy of an acknowledged
  envelope may be processed late (`LateCopyArrives`), and exactly then it is not (`WireRepeatsOnlyTheHead`).
- A dispatchable URL without nodes is never decided by answers to dispatched jobs: `NodelessUrlWaits` is one that runs
  with no job to answer, and `EveryUrlDecided` says that this is the only exception.
- Local JSON reorders integer-like ids on a restart: `IntegerIdsReorder`, and exactly when in `RestartKeepsIff`.
  SQLite and the in-memory store disagree on filters that name the JSON text of an object (`ObjectFilterDiffers`,
  exactly when in `MatchAgreesIff`) and on table names that are written alike (`NamesCollide`; the store's own names are
  not, `TablesArePlain`).
- A successful rollback clears a drain the operator had set (`DrainNotRestored`, exactly when the host is restored in
  `RestoredIff`), and a stop, swap or start that throws is not rolled back and leaves the drain flag set
  (`DrainStuckAfterStart`, exactly when in `DrainStuckIff`). Updating to the version that is current can leave it
  half-written (`CurrentDamagedIff`).
- The rate limiter is better than twice its maximum: at most `2 * max - 1` in any window length (`RateBound`), and that
  is attained (`BoundAttained`).

## Model

| member | source | states |
|---|---|---|
| Classification.ArmStatusMeaning | control-plane/comparison/classify.mjs:22-29 | which arm status results add up to, by which of the four `ok` values occur: unavailable iff none is usable, ok iff all usable are true, fail iff none is true, mixed iff some are and some are not |
| Classification.CombineGsaMeaning | control-plane/comparison/classify.mjs:55-65 | the two GSA arms combine symmetrically; mixed iff either is mixed or they disagree, ok iff some is ok and none fails or is mixed, fail likewise |
| Classification.HealthyMeans | control-plane/comparison/classify.mjs:35-52 | healthy iff no failed or null result on the Azure and GSA arms, a good one on each side, and Cloudflare not failing |
| Classification.GsaIsOneArm | control-plane/comparison/classify.mjs:55-65 | the two GSA arms combine to what their results, taken together, add up to |
| Classification.ClassifyMeans | control-plane/comparison/classify.mjs:35-52 | for each class, exactly the results of the five arms that call for it, with its confidence and what the four kept statuses say of the results |
| Classification.LeftOutIsUnavailable | control-plane/comparison/classify.mjs:35-39 | an arm that is left out counts like an arm without results |
| Versions.CompareVersions | shared/contracts/versions.mjs:34-47 | the comparison loop gives 1, 0 or -1 as the specified order says, with both missing-group special cases |
| Versions.CompareReflexive | shared/contracts/versions.mjs:34-47 | a version equals itself |
| Versions.CompareAntisymmetric | shared/contracts/versions.mjs:34-47 | comparing the other way round gives the opposite answer exactly where the versions have digits or both lack them |
| Versions.CompareTransitive | shared/contracts/versions.mjs:34-47 | at-or-above is transitive |
| Versions.CompareEqualMeans | shared/contracts/versions.mjs:34-47 | versions with digits compare equal exactly when their zero-padded groups agree |
| Versions.CompareAnswers | shared/contracts/versions.mjs:34-47 | 1, 0 or -1; a version without digits is older than every one with some |
| Versions.DottedReads | shared/contracts/versions.mjs:34-47 | numbers written in decimal with dots between are read back as these numbers |
| Versions.CompareDotted | shared/contracts/versions.mjs:34-47 | of two such versions with as many numbers the newer is the one with the larger number at the first place where they differ |
| Versions.TrailingZeroIgnored | shared/contracts/versions.mjs:34-47 | and trailing zeros make no difference |
| Versions.MeetsMinimums | shared/contracts/versions.mjs:50-58 | ok iff every minimum is met; the failures are the minimums not met, in order |
| Versions.MeetsUpwardClosed | shared/contracts/versions.mjs:50-58 | raising fields never loses a minimum |
| Versions.UpdatePlan | shared/contracts/versions.mjs:64-74 | the plan lists, in field order, the fields that are behind a desired version |
| Versions.PlanEmptyIffMeets | shared/contracts/versions.mjs:64-74 | nothing to update exactly when the desired versions are met as minimums on the same five fields |
| Versions.PlanQuietWhenCurrent | shared/contracts/versions.mjs:64-74 | a worker or supervisor update is planned exactly when that version is behind |
| NodeSelection.EligibleNodes | control-plane/scheduler/node-selection.mjs:24-30 | the pool holds, in registry order, the connected nodes of the type that are available and meet the minimums |
| NodeSelection.PoolLists | control-plane/scheduler/node-selection.mjs:24-30 | one node for each eligible record, in registry order |
| NodeSelection.EligibleIff | control-plane/scheduler/node-selection.mjs:24-30 | eligible iff of the type, in none of the eight statuses that take no work, and at or above the four desired versions |
| NodeSelection.SelectForUrl | control-plane/scheduler/node-selection.mjs:36-47 | selection and unmet quorums as specified over the configured types in order |
| NodeSelection.DispatchIffQuorums | control-plane/scheduler/node-selection.mjs:36-47 | a URL can be dispatched exactly when every required type has its quorum of eligible nodes |
| NodeSelection.SelectedAreEligible | control-plane/scheduler/node-selection.mjs:36-47 | every selected node comes from an eligible registry record of a configured type |
| NodeSelection.DispatchableIsNonEmpty | control-plane/scheduler/node-selection.mjs:36-47 | a dispatchable selection has nodes when some required type asks for at least one |
| NodeSelection.PickedMeans | control-plane/scheduler/node-selection.mjs:41-43 | the first nodes of the pool are taken: all in "all" mode, otherwise as many as the quorum, or one |
| NodeSelection.AllModeSelectsAll | control-plane/scheduler/node-selection.mjs:36-47 | in "all" mode every eligible node of the type is selected |
| NodeSelection.UnmetLists | control-plane/scheduler/node-selection.mjs:36-47 | the unmet quorums are those of the required types whose pool falls short, in order, with what is needed and what there is |
| NodeSelection.SelectedInOrder | control-plane/scheduler/node-selection.mjs:36-47 | the nodes of earlier policies come first |
| JobIds.ParseRoundTrip | control-plane/scheduler/run-orchestrator.mjs:192-195 | a job id gives back its parts when they hold no colon, and nothing when one is empty |
| JobIds.KeyInjective | control-plane/scheduler/run-orchestrator.mjs:122 | two nodes or stages never share a key in a bucket of results, whatever the names |
| JobIds.JobIdInjective | control-plane/scheduler/run-orchestrator.mjs:99 | two jobs never share an id while URL ids hold no colon |
| RunOrchestrator.Orchestrator.CreateRun | control-plane/scheduler/run-orchestrator.mjs:40-49 | the loop over the URLs leaves the five Maps as specified, including what stays behind when a URL is malformed |
| RunOrchestrator.Orchestrator.QueueUrl | control-plane/scheduler/run-orchestrator.mjs:51-81 | re-opening, inserting, dispatching or blocking, and settling, with the two errors in their order |
| RunOrchestrator.Orchestrator.MaybeCompleteRun | control-plane/scheduler/run-orchestrator.mjs:85-95 | a run is marked completed iff it is not yet, has URLs, and all of them are terminal |
| RunOrchestrator.Orchestrator.DispatchStage | control-plane/scheduler/run-orchestrator.mjs:97-108 | one job per selected node, recorded and handed over in selection order |
| RunOrchestrator.Orchestrator.OnResult | control-plane/scheduler/run-orchestrator.mjs:110-112 | a result without a job id changes nothing |
| RunOrchestrator.Orchestrator.RecordResult | control-plane/scheduler/run-orchestrator.mjs:114-126 | known, parsable and unknown job ids; bucket, row and URL change together |
| RunOrchestrator.Orchestrator.Advance | control-plane/scheduler/run-orchestrator.mjs:128-146 | one step of the URL machine, with its gates in their order |
| RunOrchestrator.Orchestrator.Finalize | control-plane/scheduler/run-orchestrator.mjs:148-175 | comparison, URL and run after completion |
| RunOrchestrator.GroupAnswers | control-plane/scheduler/run-orchestrator.mjs:150-156 | grouping the effective answers by node type in one pass gives, for each type, the answers of its nodes in selection order |
| RunMoves.AdvanceIsMove | control-plane/scheduler/run-orchestrator.mjs:128-146 | advancing starts the browser stage, completes the URL, or waits; exactly when each |
| RunMoves.InEveryState | control-plane/scheduler/run-orchestrator.mjs:23-175 | what each of the seven moves keeps holds after every possible sequence of public calls and results |
| RunMoves.FromThenOn | control-plane/scheduler/run-orchestrator.mjs:23-175 | and from any point of a run on |
| RunInvariants.Reachable | control-plane/scheduler/run-orchestrator.mjs:23-175 | in every reachable state runs and URLs point at each other, comparisons match completed URLs, completed runs have only terminal URLs, and each stage of each URL has been sent once as a whole or not at all |
| RunRecords.ClassAlwaysFits | control-plane/scheduler/run-orchestrator.mjs:51-175 | in every reachable state a running URL is pending, a blocked one inconclusive, a completed one has the class of its comparison, and none is failed |
| RunRecords.AlwaysCarried | control-plane/scheduler/run-orchestrator.mjs:97-175 | each job names the run and text of its URL and the type of its node, each comparison the run and text of its URL |
| RunRecords.RowOfJob | control-plane/scheduler/run-orchestrator.mjs:114-126 | the row stored for a known job says what the job says, with the answer and reasons of the result |
| RunRecords.RowOfStranger | control-plane/scheduler/run-orchestrator.mjs:114-126 | for any other what the job id says, with the type of the first selected node of that name |
| RunRecords.EveryUrlSubmitted | control-plane/scheduler/run-orchestrator.mjs:51-81 | every URL of every reachable state was submitted to that run, with that text, nodes and unmet quorums |
| RunRecords.RunsListSubmissions | control-plane/scheduler/run-orchestrator.mjs:40-81 | a run lists its URLs in the order submitted, a creation up to the first malformed one; exactly which calls succeed |
| RunSettlement.FinalizedOnce | control-plane/scheduler/run-orchestrator.mjs:128-175 | finalised once: a comparison exists iff the URL is completed, neither it nor the URL record ever changes afterwards, terminal stays terminal, and the browser stage is sent at most once |
| RunSettlement.RunSettledIff | control-plane/scheduler/run-orchestrator.mjs:40-95 | a public call leaves a run settled (completed, or without URLs, or with one that is not terminal) exactly unless it is one of the two calls that strand that run |
| RunSettlement.SettledIff | control-plane/scheduler/run-orchestrator.mjs:40-95 | the same of all runs at once |
| RunSettlement.RunSettledThroughoutIff | control-plane/scheduler/run-orchestrator.mjs:40-95 | over whole histories: a run is settled at every point iff no call strands it, whatever becomes of other runs |
| RunSettlement.SettledThroughoutIff | control-plane/scheduler/run-orchestrator.mjs:40-95 | the same of all runs at once |
| RunSettlement.RunCompletedIffDone | control-plane/scheduler/run-orchestrator.mjs:85-95 | while no call strands it, a run is completed iff it has URLs and all are terminal, re-opening included |
| RunSettlement.MalformedUrlStrandsRun | control-plane/scheduler/run-orchestrator.mjs:55-59 | a completed run, a malformed URL added to it: it stays in "running" with nothing left to do |
| RunSettlement.MalformedCreationStrandsRun | control-plane/scheduler/run-orchestrator.mjs:40-49 | a run created with a blocked URL and a malformed one after it: it is in "running" with nothing left to do |
| RunAnswers.RowsReachable | control-plane/scheduler/run-orchestrator.mjs:114-126 | when every result answers a dispatched job, stored rows and buckets hold the same records, each under its own job, URL and key |
| RunAnswers.RowsAreAnswered | control-plane/scheduler/run-orchestrator.mjs:114-126 | a row is stored for exactly the jobs that have been answered |
| RunAnswers.TypeOfFirst | control-plane/scheduler/run-orchestrator.mjs:120 | a result that names no known job gets the type of the first selected node with its name |
| RunAnswers.TypeOfNobody | control-plane/scheduler/run-orchestrator.mjs:120 | and none when no selected node has it |
| RunAnswers.CompletionOutcome | control-plane/scheduler/run-orchestrator.mjs:148-158 | the verdict at completion is one function of the answers: the initial ones if none is false, otherwise the browser ones |
| RunAnswers.OutcomeTells | control-plane/scheduler/run-orchestrator.mjs:148-158 | and its class, confidence and statuses are read off those answers, side by side |
| RunOutcome.SteadyReachable | control-plane/scheduler/run-orchestrator.mjs:97-175 | the invariant behind it: each URL waits for what its status says, and decides by the answers |
| RunOutcome.EveryUrlDecided | control-plane/scheduler/run-orchestrator.mjs:97-175 | in every interleaving in which all jobs dispatched for it are answered, a dispatchable URL is completed iff it was given a node, and then with that outcome: its class is the one its answers call for |
| RunOutcome.OrderIndependence | control-plane/scheduler/run-orchestrator.mjs:97-175 | so two histories with the same answers decide a URL alike, whatever the order, the other URLs and their answers |
| RunProgress.FirstAnswerLowersRun | control-plane/scheduler/run-orchestrator.mjs:114-146 | each first answer to an outstanding job strictly lowers the number of (node, stage) pairs its run still needs |
| RunProgress.StepNoMore | control-plane/scheduler/run-orchestrator.mjs:23-175 | no call and no result, known or stray, raises what any URL still needs |
| RunProgress.AnswersRunOut | control-plane/scheduler/run-orchestrator.mjs:114-146 | so from any point of any history on, first answers for a set of URLs use that number up one by one or faster, with other answers, repeated and late ones, new runs and new URLs in between |
| RunProgress.Progress | control-plane/scheduler/run-orchestrator.mjs:97-175 | for a run no call has stranded and whose dispatchable URLs were given nodes, it is at most twice the number of selected nodes, zero iff the run is completed, and while it is not some dispatched job of the run is unanswered |
| RunProgress.CompletesInTime | control-plane/scheduler/run-orchestrator.mjs:97-175 | from any point of any history, whatever is interleaved, the URLs a run has take at most twice as many first answers as they have selected nodes; given nodes, they are all terminal as soon as none of their jobs is outstanding, and a run that got no further URL and was not stranded is then completed |
| RunProgress.NodelessUrlWaits | control-plane/scheduler/run-orchestrator.mjs:97-108 | a dispatchable URL that was given no node runs, and there is no job to be answered |
| Report.IndexRows | control-plane/reporting/final-report.mjs:85-98 | the nested index finds, for every URL, node and stage, the last row that speaks for it |
| Report.NodeResults | control-plane/reporting/final-report.mjs:109-111 | the effective row of each selected node of the type, in order |
| Report.JobIdSpeaks | control-plane/reporting/final-report.mjs:87-94 | what a row's own fields leave out is taken from its job id, or from its id |
| Report.SpeaksForNothing | control-plane/reporting/final-report.mjs:87-94 | a row that leaves something out and whose job id names no job is ignored |
| Report.BuildCell | control-plane/reporting/final-report.mjs:108-114 | a cell holds the effective row of each selected node of the type, in order, and the status they add up to |
| Report.BuildUrlViews | control-plane/reporting/final-report.mjs:81-117 | one view per URL with five cells and the last comparison of the URL |
| Report.LastComparisonIs | control-plane/reporting/final-report.mjs:83-115 | the comparison shown is the last one about the URL |
| Report.NoComparison | control-plane/reporting/final-report.mjs:83-115 | and none when none is about it |
| Report.HeaderReads | control-plane/reporting/final-report.mjs:68 | the columns of the CSV, by name |
| Report.ArmPrints | control-plane/reporting/final-report.mjs:70-75 | which text the column of an arm prints, by the results of the nodes in it |
| Report.ClassPrints | control-plane/reporting/final-report.mjs:70-75 | which class and which confidence the row of a URL prints, by the answers it was decided on |
| Report.UndecidedPrints | control-plane/reporting/final-report.mjs:70-75 | a URL without a comparison prints its own class and no confidence |
| Report.RowsInOrder | control-plane/reporting/final-report.mjs:66-77 | the header comes first, then one row for each URL, in order |
| Report.PrimaryReasonIsFirst | control-plane/reporting/final-report.mjs:167-173 | the primary reason is that of the first failing node, column by column: the specific, the plain or the evidence's reason, whichever is given first |
| Report.NoFailureNoReason | control-plane/reporting/final-report.mjs:167-173 | and empty without a failing node |
| Report.RenderCsvFromModel | control-plane/reporting/final-report.mjs:66-77 | a reader following section 2 of RFC 4180, with LF as the record break, reads back exactly the header and one row per URL |
| ReportAgreement.FindsBucketEntry | control-plane/reporting/final-report.mjs:85-105 | from the stored rows in any order, repeated or not, the report finds what the orchestrator's bucket holds |
| ReportAgreement.ReportAgrees | control-plane/reporting/final-report.mjs:81-117 | when an event completes a URL, the five arm statuses rebuilt from the rows equal those it was classified by, and classifying them gives the stored comparison |
| ReportAgreement.ReportAgreesFromThenOn | control-plane/reporting/final-report.mjs:81-117 | and at every later point: while jobs answer the same when they answer again, the statuses rebuilt from the rows classify to the stored comparison |
| Csv.CellReadsBack | control-plane/reporting/final-report.mjs:278-281 | a printed cell reads back as itself, whatever quotes, commas and newlines it holds |
| Csv.CsvRoundTrip | control-plane/reporting/final-report.mjs:66-77 | a table of non-empty rows reads back as itself |
| Commands.CommandRouter.Handle | control-plane-agent/commands/index.mjs:20-30 | re-acknowledge, ignore or start a command, up to the handler; says whether the handler runs |
| Commands.CommandRouter.Tell | control-plane-agent/commands/index.mjs:16-18 | one more report, in order |
| Commands.CommandRouter.Finish | control-plane-agent/commands/index.mjs:34-42 | the terminal status is remembered and reported |
| Commands.Dispatcher.Send | control-plane/control/dispatcher.mjs:41-47 | the slot is taken even when the push throws; message and event only when it does not |
| Commands.Dispatcher.HasInFlightCommand | control-plane/control/dispatcher.mjs:55-60 | whether a command of the category is in flight for the node |
| Commands.Dispatcher.OnCommandResult | control-plane/control/dispatcher.mjs:63-78 | a terminal result of a command in flight frees its slot and emits one event; anything else changes nothing |
| DispatchHistory.HeldIff | control-plane/control/dispatcher.mjs:41-78 | over every history of sends and results, with any ids, the in-flight table holds exactly the commands sent and not ended since |
| DispatchHistory.InFlightIff | control-plane/control/dispatcher.mjs:12-21 | a kind of command is in flight for a node iff a command of one of its verbs is pending there: the two update verbs, the two drain verbs, the two job verbs, or the verb itself |
| DispatchHistory.OtherWorkIsNoUpdate | control-plane/control/dispatcher.mjs:55-60 | jobs, drains, reboots, pings and the rest never count as an update |
| DispatchHistory.JobIsNoUpdate | control-plane/control/dispatcher.mjs:12-21 | one dispatched job: a job is in flight, no update |
| DispatchHistory.AnnouncedWhenPushed | control-plane/control/dispatcher.mjs:41-47 | that a command was issued is announced each time it was pushed, and only then |
| CommandProtocol.AlwaysOrderly | control-plane-agent/commands/index.mjs:20-43 | in every reachable state the reports of a command fit what the router remembers, and its handler has run once iff it is remembered |
| CommandProtocol.HandledOnce | control-plane-agent/commands/index.mjs:20-43 | over a network that loses, repeats and reorders, a handler runs at most once per command and only on the node it was pushed to; the reports are accepted, in_progress*, then one terminal status repeated |
| CommandProtocol.DecidedByHandler | control-plane-agent/commands/index.mjs:34-42 | a router has decided "succeeded" iff the handler has returned, "failed" iff it has thrown |
| CommandProtocol.PushedIffLive | control-plane/control/dispatcher.mjs:41-47 | a command has been pushed iff it was issued while the node had a session |
| CommandProtocol.EndsOnce | control-plane/control/dispatcher.mjs:41-78 | at most one terminal event per command, agreeing with what the router decided; an issued command is in flight exactly until then |
| CommandProtocol.UnpushedStaysInFlight | control-plane/control/dispatcher.mjs:41-47 | a command that has not been pushed has not run anywhere and is in flight |
| CommandProtocol.SlotFreedIff | control-plane/control/dispatcher.mjs:63-78 | in every history an issued command has left the in-flight table iff a terminal report about it has arrived from the node it was issued to |
| CommandProtocol.FreeableIff | control-plane/control/dispatcher.mjs:41-47 | some continuation of a history has the slot free iff the command has been pushed to a session |
| CommandProtocol.StuckSlot | control-plane/control/dispatcher.mjs:43-44 | one command sent to a node without a session: a slot that no continuation frees |
| Channel.Connection.Send | control-plane-agent/core/connection.mjs:172-183 | hand off, buffer or drop; the answer is true on an open socket and always in long-poll mode |
| Channel.Connection.Start | control-plane-agent/core/connection.mjs:186-190 | opens the transport of the current mode |
| Channel.Connection.ConnectWs | control-plane-agent/core/connection.mjs:61-65 | a new socket, unless closed |
| Channel.Connection.FlushWs | control-plane-agent/core/connection.mjs:96-99 | the loop hands over the whole buffer in order |
| Channel.Connection.OnOpen | control-plane-agent/core/connection.mjs:66-72 | an opened socket resets the failure count and empties the buffer |
| Channel.Connection.OnClose | control-plane-agent/core/connection.mjs:80-92 | count a socket that never opened, fall back to long-poll, or schedule a reconnect |
| Channel.Connection.Retry | control-plane-agent/core/connection.mjs:91 | a reconnect timer opens one socket, unless closed |
| Channel.Connection.StartLongPoll | control-plane-agent/core/connection.mjs:102-110 | the mode changes and what is buffered is pushed, unless closed |
| Channel.Connection.LpFlush | control-plane-agent/core/connection.mjs:112-117 | at most one flush at a time, and only in long-poll mode |
| Channel.Connection.PushNext | control-plane-agent/core/connection.mjs:116-123 | the head of the buffer is pushed while there is one and the channel is open in long-poll mode |
| Channel.Connection.OnPushReply | control-plane-agent/core/connection.mjs:116-135 | only an acknowledgement takes the head off the buffer; a 401 closes; any other outcome keeps it |
| Channel.Connection.Close | control-plane-agent/core/connection.mjs:199-212 | closed, without a socket, the buffer kept |
| ChannelFifo.AlwaysGood | control-plane-agent/core/connection.mjs:96-136 | buffer bound, empty buffer on an open socket, no socket in long-poll mode, and the posted envelope is the head of the buffer |
| ChannelFifo.UpChannelFifo | control-plane-agent/core/connection.mjs:80-136 | everything sent is, in order, handed off, acknowledged or buffered, exactly when nothing was sent while the buffer was full; with drops, the same of what was kept |
| ChannelFifo.WireRepeatsOnlyTheHead | control-plane-agent/core/connection.mjs:112-136 | pushes may be processed late and more than once: without adjacent repeats the server's log continues the handed-off envelopes to a prefix of what was kept, with all that was acknowledged and at most one more, iff no copy of an acknowledged envelope is processed late other than in place |
| ChannelFifo.AlwaysTraced | control-plane-agent/core/connection.mjs:112-136 | pushes are made for the head of the buffer only, and what is acknowledged has been processed |
| ChannelFifo.LateCopyArrives | control-plane-agent/core/connection.mjs:112-136 | such a history: a push fails for its sender, the retry is acknowledged, a second envelope is processed, and then the first request arrives |
| ChannelFallback.FallsBackIff | control-plane-agent/core/connection.mjs:80-92 | over every history the channel is in long-poll mode iff it was set up so, or chooses freely and at some point failoverAfter sockets in a row, at least one, had closed without having opened |
| ChannelFallback.KeepsTrying | control-plane-agent/core/connection.mjs:61-92 | until then a started channel that has not been given up has a socket or a reconnect pending |
| ChannelFallback.PushesItsHead | control-plane-agent/core/connection.mjs:112-178 | from then on every envelope sent, and every poll that returns while something is buffered, has the head of the buffer being pushed |
| ChannelFallback.GivenUpRests | control-plane-agent/core/connection.mjs:61-117 | once closed or refused it creates no socket and makes no push |
| ChannelFallback.OpenSocketTakesAll | control-plane-agent/core/connection.mjs:66-99 | a socket that opens takes all that is buffered, in order, and then whatever is sent |
| LongPoll.LongPollSession.Send | control-plane/server/channel.mjs:101-112 | queue, and answer the waiting poll with the whole queue |
| LongPoll.LongPollSession.FlushWaiter | control-plane/server/channel.mjs:105-112 | a waiting poll gets the whole queue, and only when there is something in it |
| LongPoll.LongPollSession.HandlePoll | control-plane/server/channel.mjs:158-176 | answer from the queue, or release the previous poll and wait |
| LongPoll.LongPollSession.OnTimeout | control-plane/server/channel.mjs:169-174 | only the poll that waits is answered empty |
| LongPoll.LongPollSession.OnRequestClose | control-plane/server/channel.mjs:177-182 | only the poll that waits is forgotten |
| LongPoll.LongPollSession.Close | control-plane/server/channel.mjs:113-119 | the waiting poll is answered empty |
| LongPoll.DeliversInOrder | control-plane/server/channel.mjs:85-125 | reply bodies in reply order followed by the queue are the envelopes sent; no poll waits while the queue is not empty |
| LongPoll.EveryPollSettledOnce | control-plane/server/channel.mjs:158-183 | every poll is answered, dropped by its client, or the one that waits: exactly one of these, once |
| LongPoll.AnsweredInTime | control-plane/server/channel.mjs:101-183 | unless its client goes away, a poll is answered when its time is up, the next poll or a message comes, or the session is detached |
| LongPoll.WaitsUntil | control-plane/server/channel.mjs:158-183 | a waiting poll goes on waiting exactly until one of these or its client going away; other polls' timeouts do not concern it |
| Rollout.UpdateManager.PickRolloutBatch | control-plane/control/update-manager.mjs:47-57 | the batch handed out and the nodes added to those in flight |
| Rollout.UpdateManager.StateFor | control-plane/control/update-manager.mjs:21-27 | an unknown component version starts as a fresh canary |
| Rollout.UpdateManager.RecordOutcome | control-plane/control/update-manager.mjs:67-79 | the node is freed; a failure halts, the first success ends the canary phase |
| Rollout.UpdateManager.ClearHalt | control-plane/control/update-manager.mjs:81-84 | only the halt is cleared |
| Rollout.StateMirrorsHistory | control-plane/control/update-manager.mjs:21-84 | the state of a rollout is what its history of batches, outcomes and clearances says |
| Rollout.RolloutSafety | control-plane/control/update-manager.mjs:47-57 | every batch of every history is drawn from nodes in need and not in flight, keeps the total within maxInFlight, is at most a canary before the first success and a wave after it, is empty while halted, is otherwise as large as these bounds allow, and takes the first in the order handed in |
| Rollout.NeverTooManyInFlight | control-plane/control/update-manager.mjs:50-55 | picked nodes without an outcome never exceed maxInFlight |
| Rollout.OncePerBatchIff | control-plane/control/update-manager.mjs:52-55 | no batch names a node twice, whatever the state and policy, iff the names handed in are distinct |
| Rollout.CanaryExceededIff | control-plane/control/update-manager.mjs:50-55 | before any success more than a canary of nodes can be in flight iff maxInFlight allows more |
| Reconciler.Reconciler.ReconcileOnce | control-plane/control/reconciler.mjs:13-48 | one pass: supervisor updates, worker updates, drains, and where it throws |
| Reconciler.Reconciler.ConvergeComponent | control-plane/control/reconciler.mjs:17-33 | nothing without a desired version; otherwise the picked batch of the nodes in need is served |
| Reconciler.Reconciler.SendBatch | control-plane/control/reconciler.mjs:27-32 | skip nodes with an update in flight; stop at an unregistered bundle or a missing session |
| Reconciler.Reconciler.ConvergeDrains | control-plane/control/reconciler.mjs:43-47 | a command for every node whose drain state is not as wanted |
| Reconciler.NodesNeeding | control-plane/control/reconciler.mjs:22-25 | the nodes whose plan asks for this component, in order |
| ReconcilerProgress.NeedingLists | control-plane/control/reconciler.mjs:22-26 | handed to a rollout are the names of exactly the nodes behind on the component, in registry order, each as often as it is registered |
| ReconcilerProgress.PassAttends | control-plane/control/reconciler.mjs:13-33 | when the update steps of a pass get through, every node that is behind was outstanding in its rollout already or has an update in flight at the end of the pass, unless the rollout is halted, its canary or batch size was reached, or maxInFlight was |
| ReconcilerSafety.PassIsGuarded | control-plane/control/reconciler.mjs:13-48 | a pass is a sequence of guarded updates and of commands that are not updates |
| ReconcilerSafety.OneUpdatePerNode | control-plane/control/reconciler.mjs:27-30 | under any interleaving of such steps with results, no node name has two updates in flight, over both components |
| ReconcilerSafety.PassIdleIff | control-plane/control/reconciler.mjs:13-48 | exactly when a pass issues nothing, and the dispatcher is then untouched |
| ReconcilerSafety.ConvergedFleetIsQuiet | control-plane/control/reconciler.mjs:13-48 | a fleet at or above the desired versions, drained as wanted, hears nothing |
| ReconcilerSafety.PassIsJustified | control-plane/control/reconciler.mjs:13-48 | every command a pass pushes has its reason in a node of that name: the component it updates is behind, or the drain state is not as wanted; nothing else is pushed |
| ReconcilerSafety.DrainsIgnoreFlight | control-plane/control/reconciler.mjs:43-47 | what the drain step pushes does not depend on what is in flight; it gets to the end iff no node it has a command for lacks a session |
| ReconcilerSafety.DrainReissuedIff | control-plane/control/reconciler.mjs:13-48 | a pass pushes a drain to a node that had one in flight iff both update steps get through and, among the nodes the drain step gets to, such a node's drain state is not as wanted |
| ReconcilerSafety.DrainSentTwice | control-plane/control/reconciler.mjs:43-47 | two passes over one node put two drain commands in flight |
| ReconcilerSafety.GoesThroughIff | control-plane/control/reconciler.mjs:17-33 | the two update steps of a pass complete iff every node picked is busy, was served with the first batch, or has a session and a registered bundle |
| ReconcilerSafety.PassCompletesIff | control-plane/control/reconciler.mjs:13-48 | a pass does not throw iff its update steps complete and every node whose drain state is not as wanted has a session |
| ReconcilerSafety.UnnamedStopsThePass | control-plane/control/reconciler.mjs:22-30 | a pass that picks a session which has not said hello, and has no name yet, throws |
| ReconcilerSafety.UnnamedThrows | control-plane/control/reconciler.mjs:22-30 | one such session and one desired supervisor version are enough |
| ReconcilerSafety.UndefinedIsUnnamed | control-plane/control/reconciler.mjs:43-47 | over one such session a pass with nothing to update completes iff no node called "undefined" is to drain |
| Stores.MapSet | control-plane/state/adapters/memory.mjs:23-26 | walking the entries, a known id keeps its place and a new one goes to the end |
| Stores.MapDelete | control-plane/state/adapters/memory.mjs:30-32 | walking the entries drops the id, and says whether it was there |
| Stores.MapGet | control-plane/state/adapters/memory.mjs:27-29 | walking the entries finds the record of the id |
| Stores.SelectRows | control-plane/state/adapters/memory.mjs:33-39 | filtering and reversing row by row, then cutting off |
| Stores.UpsertRow | control-plane/state/adapters/sqlite.mjs:67-71 | the row with the id is found by walking the rowids and updated, or a new one gets the next rowid |
| Stores.DeleteRowById | control-plane/state/adapters/sqlite.mjs:77-80 | the row with the id is found by walking the rowids and removed |
| Stores.RowsInOrder | control-plane/state/adapters/sqlite.mjs:51-55 | taking the largest rowid again and again lists the rows in ascending order |
| Stores.Scan | control-plane/state/adapters/sqlite.mjs:46-57 | walking the rows from one end and stopping at the limit selects what ordering, filtering and limiting do |
| Stores.MemoryAdapter.Append | control-plane/state/adapters/memory.mjs:19-22 | the event is the last one |
| Stores.MemoryAdapter.Put | control-plane/state/adapters/memory.mjs:23-26 | an existing id keeps its place, a new one goes to the end |
| Stores.MemoryAdapter.Get | control-plane/state/adapters/memory.mjs:27-29 | the record under the id, or none |
| Stores.MemoryAdapter.Delete | control-plane/state/adapters/memory.mjs:30-32 | the entry goes; the answer says whether it was there |
| Stores.MemoryAdapter.Query | control-plane/state/adapters/memory.mjs:33-39 | filter, reverse, cut off, over records or events |
| Stores.SqliteAdapter.Ensure | control-plane/state/adapters/sqlite.mjs:38-44 | the table exists afterwards under the name that is written into statements, empty if it is new, and no other changes; an empty name throws |
| Stores.SqliteAdapter.Append | control-plane/state/adapters/sqlite.mjs:63-66 | the event gets a sequence number above all earlier ones |
| Stores.SqliteAdapter.Put | control-plane/state/adapters/sqlite.mjs:67-71 | update in place on a known id, insert at the next rowid otherwise; one row per id |
| Stores.SqliteAdapter.Get | control-plane/state/adapters/sqlite.mjs:72-76 | the record of the row with the id, or none |
| Stores.SqliteAdapter.Delete | control-plane/state/adapters/sqlite.mjs:77-80 | the row goes; the answer says whether there was one |
| Stores.SqliteAdapter.Query | control-plane/state/adapters/sqlite.mjs:46-57 | rows by rowid or events by sequence number, in the order asked for, filtered and cut off |
| Stores.LocalJsonAdapter.Load | control-plane/state/adapters/local-json.mjs:19-26 | from the cache, else from the file through a JavaScript object, else empty |
| Stores.LocalJsonAdapter.Persist | control-plane/state/adapters/local-json.mjs:28-33 | the file holds the table, loaded first if need be, in the key order of a JavaScript object |
| Stores.LocalJsonAdapter.Append | control-plane/state/adapters/local-json.mjs:47-54 | the event is the last one, in cache and file |
| Stores.LocalJsonAdapter.Put | control-plane/state/adapters/local-json.mjs:55-62 | cache and file change together |
| Stores.LocalJsonAdapter.Get | control-plane/state/adapters/local-json.mjs:64-67 | the loaded record under the id, or none |
| Stores.LocalJsonAdapter.Delete | control-plane/state/adapters/local-json.mjs:68-75 | cache and file change together; the answer says whether the id was there |
| Stores.LocalJsonAdapter.Query | control-plane/state/adapters/local-json.mjs:76-82 | filter, reverse, cut off, over what is loaded |
| StoreModel.ReinsertMovesToEnd | control-plane/state/adapters/memory.mjs:23-32 | an id deleted and put again is last |
| StoreModel.ReplaceKeepsPlaces | control-plane/state/adapters/memory.mjs:23-26 | putting a known id changes its record and no position |
| StoreModel.IdsUnique | control-plane/state/adapters/memory.mjs:23-32 | in every reachable store no table holds an id twice |
| StoreHistory.ReadsLastPut | control-plane/state/adapters/memory.mjs:23-32 | get finds what was last put and not deleted since; delete says whether there was something |
| StoreHistory.LogIsAppended | control-plane/state/adapters/memory.mjs:19-22 | the event log is what was appended, in order |
| StoreHistory.ListAnswers | control-plane/state/adapters/memory.mjs:33-39 | a list answers the records that meet the filter, in order or reversed, and with a limit the first of these |
| SqliteModel.UpsertAgrees | control-plane/state/adapters/sqlite.mjs:67-71 | upserting by rowid does to the rows in rowid order what Map.set does to entries |
| SqliteModel.DeleteRowAgrees | control-plane/state/adapters/sqlite.mjs:77-80 | deleting likewise |
| SqliteModel.SelectAgrees | control-plane/state/adapters/sqlite.mjs:46-57 | ordering before filtering and limiting selects what filtering, reversing and cutting off does |
| SqliteModel.WrittenUnchangedIff | control-plane/state/adapters/sqlite.mjs:97-101 | a table name is written as it is iff it is made of letters, digits and underscores |
| SqliteModel.RefusedIff | control-plane/state/adapters/sqlite.mjs:36-84 | exactly which calls throw, changing nothing |
| SqliteModel.MatchAgreesIff | control-plane/state/adapters/sqlite.mjs:48-49 | the two notions of a match agree on every string filter iff the record holds no object or array |
| StoreAgreement.ObjectFilterDiffers | control-plane/state/adapters/sqlite.mjs:48-49 | two operations whose answers differ: an object put and asked for by its JSON text |
| StoreAgreement.SharedTable | control-plane/state/adapters/sqlite.mjs:97-101 | two table names that are written alike share a table |
| StoreAgreement.NamesCollide | control-plane/state/adapters/sqlite.mjs:97-101 | as "a-b" and "ab" do |
| StoreAgreement.TablesArePlain | control-plane/state/store.mjs:12-27 | the tables of the store all have names that are written as they are |
| StoreAgreement.SqliteAgrees | control-plane/state/adapters/sqlite.mjs:59-84 | for every sequence of operations SQLite gives the answers of the in-memory adapter, in the same order |
| JsonModel.IsIndexIff | control-plane/state/adapters/local-json.mjs:19-33 | the integer-like ids are the numbers below 2^32 - 1 as written in decimal |
| JsonModel.ReloadKeepsIff | control-plane/state/adapters/local-json.mjs:19-33 | writing and reading a table keeps its order iff integer-like ids come first, ascending |
| JsonModel.ReloadPermutes | control-plane/state/adapters/local-json.mjs:19-33 | and never loses or adds an entry |
| StoreAgreement.RestartKeepsIff | control-plane/state/adapters/local-json.mjs:19-33 | in every reachable state a restart leaves a table as it was iff its integer-like ids come first, ascending |
| StoreAgreement.JsonAgrees | control-plane/state/adapters/local-json.mjs:43-82 | local JSON gives the in-memory answers, restarts included, when every restart finds such an order |
| StoreAgreement.JsonAgreesOnNames | control-plane/state/adapters/local-json.mjs:43-82 | so it always does without integer-like ids |
| StoreAgreement.IntegerIdsReorder | control-plane/state/adapters/local-json.mjs:19-33 | ids "2" and "1", put in this order, come back the other way round |
| Enrollment.EnrollmentService.IssueToken | control-plane/control/enrollment.mjs:38-53 | expired tokens go, the new one is in memory and store, known by its hash |
| Enrollment.EnrollmentService.Enroll | control-plane/control/enrollment.mjs:56-98 | the six refusals in their order; a success consumes the token and replaces the credential of the node |
| Enrollment.EnrollmentService.VerifyCredential | control-plane/control/enrollment.mjs:100-104 | true iff the credential's hash is the one on record and not revoked |
| Enrollment.EnrollmentService.VerifyClientCert | control-plane/control/enrollment.mjs:107-111 | true iff the record is not revoked and the pinned and the presented fingerprint decode to the same bytes |
| Fingerprints.SameFingerprintIff | control-plane/control/enrollment.mjs:157-168 | two digests, each printed as the platform prints it or in plain lower case, are the same fingerprint iff they are the same bytes |
| Fingerprints.OtherTextIff | control-plane/control/enrollment.mjs:157-168 | any other text is the fingerprint of a digest iff its pairs of hex digits, up to the first that is none, are the digest |
| EnrollmentState.NodeIdInjective | control-plane/control/enrollment.mjs:82 | two nodes share an id iff they have the same type and, but for white space around it, the same name |
| EnrollmentState.TrimmedMeans | shared/contracts/nodes.mjs:44-46 | trimming a node name takes white space off both ends, and all of it |
| EnrollmentState.SpaceIs | shared/contracts/nodes.mjs:44-46 | blanks, tabs and line breaks are white space, other printable ASCII characters are not |
| Enrollment.EnrollmentService.RevokeCredential | control-plane/control/enrollment.mjs:113-120 | the record stays and is revoked, in memory and store |
| Enrollment.EnrollmentService.RevokeToken | control-plane/control/enrollment.mjs:122-126 | the token is gone from memory and store; the answer says whether memory had it |
| Enrollment.EnrollmentService.SweepExpired | control-plane/control/enrollment.mjs:129-139 | what a sweep leaves in memory and store, and its count |
| Enrollment.SweepMaps | control-plane/control/enrollment.mjs:129-139 | the loop removes exactly the expired tokens, from memory and store, and counts them |
| Enrollment.EnrollmentService.Load | control-plane/control/enrollment.mjs:142-152 | a fresh service ends up with what the store holds |
| EnrollmentRuns.AlwaysMirrored | control-plane/control/enrollment.mjs:28-36 | after every operation the tables of the store are the maps in memory |
| EnrollmentRuns.RestartsChangeNothing | control-plane/control/enrollment.mjs:142-152 | restarts anywhere in a run change no state and no answer |
| EnrollmentRuns.OneTimeMintsOnce | control-plane/control/enrollment.mjs:56-98 | a token issued for one use mints at most one credential in any run |
| EnrollmentRuns.EnrollsIff | control-plane/control/enrollment.mjs:56-98 | with a clock that never runs backwards, exactly which enrollments succeed, read off the history: issued, not revoked, not expired, not used up, in scope, well formed |
| EnrollmentRuns.SweepMeans | control-plane/control/enrollment.mjs:129-139 | in every reachable state a sweep takes exactly the tokens whose time is over, from memory and store, and says how many |
| EnrollmentRuns.RevokeTokenAnswers | control-plane/control/enrollment.mjs:122-126 | revoking answers yes only for a granted token, and always while its time is not over |
| EnrollmentRuns.RevokeCredentialAnswers | control-plane/control/enrollment.mjs:113-120 | revoking answers yes iff the node has ever been given a credential |
| EnrollmentRuns.VerifiesIff | control-plane/control/enrollment.mjs:100-120 | a credential verifies iff it is the last one minted for its node and has not been revoked since |
| EnrollmentRuns.PresentedVerifiesIff | control-plane/control/enrollment.mjs:107-111 | whatever fingerprint is presented verifies iff it reads as the digest of the certificate that came with the last mint for the node, not revoked since |
| EnrollmentRuns.CertVerifiesIff | control-plane/control/enrollment.mjs:107-111 | a client certificate verifies iff it is, byte for byte of its digest, the one that came with the last mint for the node, not revoked since |
| Updater.HostUpdater.ApplyBundle | control-plane-agent/updater/apply-bundle.mjs:31-85 | link, markers, worker and outcome for every way the steps can fail |
| Updater.HostUpdater.Unpack | control-plane-agent/updater/apply-bundle.mjs:51-54 | unpacking leaves the version's directory whole, half-written or as it was |
| Updater.HostUpdater.RollbackTo | control-plane-agent/updater/rollback.mjs:8-28 | nothing without a target; drain, stop, swap, start in order otherwise |
| Updater.HostUpdater.SwitchWorker | control-plane-agent/updater/apply-bundle.mjs:65-72 | drain, stop, swap, start and undrain, with everything after a failing step left undone |
| Updater.LinkAfter | control-plane-agent/updater/apply-bundle.mjs:31-85 | where `current` points for every failure point; requested only after the checks, lost only by a swap that loses it; the other component untouched |
| Updater.GateFailureRestores | control-plane-agent/updater/apply-bundle.mjs:74-82 | a failed health gate with a known previous version and working steps back restores link, worker version and undrained worker |
| Updater.RestoredIff | control-plane-agent/updater/rollback.mjs:16-22 | the host is then as before iff the directory is named by its marker and the worker ran that version undrained |
| Updater.SucceedsIff | control-plane-agent/updater/apply-bundle.mjs:31-85 | exactly which updates succeed |
| Updater.RestartsIff | control-plane-agent/updater/apply-bundle.mjs:59-63 | the supervisor is restarted by each of its own updates that succeeds, and by nothing else |
| Updater.SupervisorRollback | control-plane-agent/updater/rollback.mjs:8-28 | a rollback of the supervisor works iff it has a target and the swap works, and then restarts it |
| Updater.DrainStuckIff | control-plane-agent/updater/apply-bundle.mjs:65-79 | exactly which failures leave the worker draining |
| Updater.DrainNotRestored | control-plane-agent/updater/rollback.mjs:16-22 | a rollback that works all the way and leaves a worker undrained that the operator had drained |
| Updater.DrainStuckAfterStart | control-plane-agent/updater/apply-bundle.mjs:67-72 | a start that throws leaves the worker draining, on the new version, with nothing rolled back |
| Updater.CurrentDamagedIff | control-plane-agent/updater/apply-bundle.mjs:51-54 | `current` ends up in a half-written directory iff the update was to the current version itself, passed its checks, and unpacking failed half-way |
| Updater.CurrentIsTrusted | control-plane-agent/updater/apply-bundle.mjs:31-85 | over any number of updates with any failures, `current` is the initial version or one whose bundle passed the hash and signature checks, and missing only after a lost swap |
| RateLimit.RateLimiter.Allow | control-plane/server/rate-limit.mjs:12-22 | a new window, a denial or one more in the window |
| RateLimit.RateLimiter.Sweep | control-plane/server/rate-limit.mjs:25-27 | exactly the windows that are over go |
| RateLimit.SweepsChangeNothing | control-plane/server/rate-limit.mjs:25-27 | sweeps anywhere in a run change no answer |
| RateLimit.AllowedIff | control-plane/server/rate-limit.mjs:12-22 | exactly which requests are allowed, read off the times of the requests: those that open a window, and those that find fewer than max in the current one |
| RateLimit.RateBound | control-plane/server/rate-limit.mjs:12-22 | any closed interval of length windowMs holds at most 2 * max - 1 allowed requests of a key |
| RateLimit.BoundAttained | control-plane/server/rate-limit.mjs:12-22 | and some run has that many |

## Left out

- Versions.CompareVersions: digit groups are unbounded numbers; JavaScript loses precision beyond 2^53.
- Classification.ArmStatusMeaning: `ok` is true, false, null or missing, not any other truthy or falsy value.
- RunSettlement.RunCompletedIffDone: speaks of histories in which no call strands that run; `RunSettledThroughoutIff` shows that these are exactly the ones in which it is settled throughout.
- ReportAgreement.ReportAgrees: with `ReportAgreesFromThenOn`, assumes non-empty node names and URL ids, as the code generates and enrolls them.
- Report.RenderCsvFromModel: the node inventory, the evidence section and the HTML of the report are not modelled.
- CommandProtocol.HandledOnce: one supervisor per bare node name that stays up; the registry's fallback from one node name to another that ends in it is not modelled.
- DispatchHistory.InFlightIff: commands have one of the eleven verbs of the contract, which `makeCommand` demands.
- ChannelFifo.WireRepeatsOnlyTheHead: assumes unique envelope ids, as the code generates them, and that `start` is called once.
- LongPoll.DeliversInOrder: one session from its creation to its detachment; overlapping sessions of a node are not modelled.
- Reconciler.Reconciler.ReconcileOnce: the set of nodes with a session stays the same during one pass, as the awaits of a pass wait for no I/O but only let other pending microtasks run; `OneUpdatePerNode` does without that. Configuration pushes never happen in the code (`needsConfig` returns false). A missing name is written "", which no node can have.
- ReconcilerProgress.PassAttends: command ids are new, as the code generates them, and one process keeps the rollouts from the start.
- Rollout.RolloutSafety: recording outcomes is a step of the environment, since the server never calls it; nothing is claimed about a fleet converging, because a node skipped for an update in flight keeps its place in the batch.
- StoreAgreement.SqliteAgrees: string filters on plain field names, plain table names, appending to the event log only, and no put, get or delete there, which SQLite answers by throwing; a store that is used by several callers at once is not modelled.
- StoreAgreement.JsonAgrees: operations one after another; the per-table locks, a crash in the middle of a file write and values that JSON cannot hold are not modelled.
- Enrollment.EnrollmentService.Enroll: hashing is an injective constructor, and of a certificate only its digest matters, or that it is unreadable; store errors, which the code swallows, are not modelled.
- Updater.HostUpdater.ApplyBundle: a directory is whole or half-written, its files are not modelled; worker crashes and restarts during an update, and the restart of the supervisor service itself, are left out.
- RateLimit.RateBound: a clock that never runs backwards.
- Records are values: the code keeps handing out the objects it stores, so a caller that changed one would change the store.
- URL parsing, TLS, HTTP routing, authentication headers, probing, browser runs, artifacts, site packets, metrics and the portal are not part of this model.
- control-plane/scheduler/lifecycle.mjs and control-plane/scheduler/queue.mjs are not wired in and not modelled.
