# MaidCafe daemon and cloud: a verification model

MaidCafe runs a daemon on each host and a control plane in the cloud. Between HTTP handlers and
drivers sit several small protocols and transformations whose guarantees the comments promise.
This project models those and proves the promises, for every input, every run or every interleaving:

* **Long operations** (`Tasks`, `TaskStores`, `Stages`): planned stages with ordered alternative
  attempts, the task object that shows their progress, its bounded output tail and the clients that
  follow it by offset, and the store that evicts history in place.
* **Compose store selection** (`ComposeStores`): one binary reaches two container stores; a plan
  addresses the one store that holds the project.
* **Leases and sessions in the cloud** (`WebhookRelay`, `CloudTerminal`, `TerminalAttach`, `TerminalWait`,
  `Disconnects`, with `Selection` for "oldest first"): webhook leases against a sequential daemon
  that may crash, the terminal session life cycle with single-use tickets, the long poll's wake-ups,
  and disconnect detection with a cooldown.
* **Snapshot reconcile** (`Snapshots`): the daemon's coverage-tagged batch composed with the cloud's ingest.
* **Concurrent shutdown and fan-out** (`TerminalSession`, `StreamHub`): reader, reaper, pump and
  closers over close-once channels; the event hub that drops the oldest frame of a full subscriber.
* **Transformations** (`ConfigPatch`, `ConfigPatchLaws`, `ImageRef`, `FilePaths`, `FileCopy`): the
  line-preserving TOML patch, the image reference parser and printer, path resolution, paged reads,
  the recursive copy.
* **Log delivery** (`LogDelivery`): the capture cursor, the ring, and the bounded upload queue.

`Wrappers`, `Sequences` and `Text` hold shared vocabulary. Code that updates fields or arrays is
modelled as classes and methods over them; concurrency is a state machine whose events are the
atomic steps of the goroutines, taken in any order. One service call of the cloud is one step,
except where a row below says that statements interleave.

Whatever the daemon or the cloud cannot decide itself is a parameter or a free choice: what a
command answers, what a store lists, which ids are drawn, whether a publish arrives, when a timer
fires, in which order a map is iterated. Time is an integer clock that does not run backwards.

## Where the code and its promises part

Each of these has a lemma with the exact condition, or a run that shows the failure.

* `[daemon]` must be spelled without a trailing comment, and so must the header after it unless all
  patched keys are already present; otherwise the patch makes a second `[daemon]` table or writes
  into the next one (`ConfigPatchLaws.PatchIsTheUpdate`, `CommentedDaemonHeader`, `CommentedNextHeader`).
* A store that does not answer and cannot be read through sudo is treated as not holding the
  project, so a run of the plan can create a second copy; it never does exactly when every store
  that holds the project answered or is the planned one (`ComposeStores.RunKeepsOneStore`,
  `UnansweredStoreIsNotSeen`).
* A comment in `internal/daemon/ops.go:1175` says a container whose image reference resolves to
  nothing is not behind; the code counts it as behind, and the model follows the code.
* A ticket's handshake reads its session and then swaps the ticket away; `internal/cloud/terminal.go:246-248`
  promises that ended sessions and expired tickets are refused, but the swap checks neither. It honours
  both exactly when no call ended the session in between and the swap comes within the ticket's lifetime
  (`CloudTerminal.HitHonoursTheChecksExactly`, `HandshakeMayOutliveItsSession`).
* An attach reads its session and then updates it by id alone (`internal/cloud/terminal.go:339-356`). If the
  row it read was not active yet, the update brings back a session that ended in between, or stamps the
  start of one that another attach started in between a second time (`TerminalAttach.SplitAttachRevivesExactly`,
  `AttachMayReviveItsSession`). The promises of whole calls hold throughout a run exactly when no update
  revives (`SplitRunKeepsInvExactly`), and a row only moves forward exactly when no update does either to it
  (`SplitRunMovesExactly`). Single-use tickets survive in any case, and the cap is exceeded by revived
  sessions only (`EverySplitRun`).
* The comments at `internal/daemon/terminal_ws.go:226` and `:295` call the pump the only writer and the
  exit frame the last frame; the read loop writes error frames to the same connection, and one may come
  after the exit frame (`TerminalSession.ExitIsLastExactly`, `ErrorMayFollowExit`).
* The winning close of a terminal session may return while `done` is still open, in a window of the
  reaper (`TerminalSession.WinningCloseReleases`, `CloseMayReturnBeforeDone`).
* A poll older than an hour may lose its registration to another poll's pruning and miss its wake-up
  (`TerminalWait.PrunedPollMissesItsWake`); a timer may also win over a wake-up that comes right after.
* The shared processes frame uses -1 both as "no limit seen yet" and as a limit, so a limit of -1
  would get another subscriber's rows (`StreamHub.SharedFrameIsEverySlice`). None arrives: the query
  parser refuses negative limits and the configured default lies between 1 and 500, and without them
  every subscriber gets its own slice (`StreamHub.Hub.BroadcastProcesses`).
* A poll for webhooks that the daemon gave up on may still arrive while a batch is worked off, take an
  expired request of the batch back and hand others out; the report of that request is then refused
  and it runs again. A report that was given up on may land while its request is in hand once more, and
  the report of that second run is refused. Otherwise, and only then, a request in hand is still leased
  (`WebhookRelay.BatchIsStillLeased`, `StrayPollTakesBack`, `LateReportOvertakes`).
* A copy whose source is itself a symbolic link yields the file behind it. The check against copying a
  directory into itself is lexical: without links among the parents it is right (`FileCopy.GuardSuffices`),
  with one a destination inside the source gets past it (`LinkedParentPassesTheGuard`). Such a copy is
  never done, and otherwise a directory is copied unless an operation fails: exactly the destinations
  outside the source succeed (`FileCopy.FileSystem.Copy`).
* New log lines that share the cursor's timestamp are not captured
  (`LogDelivery.TickCapturesTheNewLines`), and additions during a publish would drop unsent lines
  when they overflow the queue (`LogDelivery.AddingDuringAFlush`); one goroutine does both, so they do not.
* Rows of a runtime that no snapshot lists any more are never retired (`Snapshots.FullCoverage`).
* The name@digest parser takes a tag for a part of the repository (`ImageRef.ParsersAgreeExactly`).

## Model

| member | source | states |
|---|---|---|
| `Tasks.OpTask.constructor` | internal/daemon/tasks.go:112-133 | A new task is running, with every planned stage pending |
| `Tasks.OpTask.StageStarted` | internal/daemon/tasks.go:146-158 | The first pending stage of that name runs, and an observer may see exactly that |
| `Tasks.OpTask.StageFinished` | internal/daemon/tasks.go:161-177 | The first running stage of that name has succeeded or failed |
| `Tasks.MarkMovesTheCurrentStage` | internal/daemon/tasks.go:146-177 | While the stages read succeeded*, current, pending*, marking by name moves exactly the current stage, even when names repeat |
| `Tasks.NextStageIsPending` | internal/daemon/tasks.go:146-177 | After a success the next stage is the one to start |
| `Tasks.OpTask.Write` | internal/daemon/tasks.go:182-192 | The in-place shifted buffer stays the last 32768 bytes of everything written, and the counter their number |
| `Tasks.Answer` | internal/daemon/tasks.go:275-293 | A reply is a contiguous piece of the stream up to its end; it starts where asked while that is retained and says truncated exactly when it is not |
| `Tasks.OpTask.OutputSince` | internal/daemon/tasks.go:275-293 | The offset arithmetic on the buffer computes that reply |
| `Tasks.OpTask.Finish` | internal/daemon/tasks.go:196-220 | A task succeeds exactly when its run was not stopped and answered OK, is canceled exactly when it was canceled, and shows at most 512 bytes of a failure; done is closed |
| `Tasks.OpTask.CancelRun` | internal/daemon/tasks.go:223-233 | Cancels exactly running tasks |
| `Tasks.ReceiveKeepsSegment` | internal/daemon/tasks.go:275-293 | A client that appends, or replaces when told truncated, holds a contiguous segment of the stream ending at its offset |
| `Tasks.FollowStep` | internal/daemon/tasks_http.go:35-58 | Writes, polls and receipts interleaved in any way keep that |
| `Tasks.FollowerHoldsASegment` | internal/daemon/tasks_http.go:35-58 | So it holds over every run: no gap, overlap or repeat |
| `Tasks.QuietPollCatchesUp` | internal/daemon/tasks_http.go:35-58 | One poll without a write in between brings the client to the end, extended or replaced by the tail |
| `Tasks.SnapshotCountSkipsBytes` | internal/daemon/tasks_http.go:50-53 | Following by the snapshot's byte count instead of from + len(output) skips bytes |
| `TaskStores.RetainKeepsTheNewest` | internal/daemon/tasks.go:307-328 | What eviction leaves: all running tasks, and of the finished ones the newest up to the limit, in order |
| `TaskStores.TaskStore.Add` | internal/daemon/tasks.go:307-328 | Order and map after an add are that retained order and its tasks, nothing else; order stays duplicate-free and names exactly the stored tasks |
| `TaskStores.TaskStore.Evict` | internal/daemon/tasks.go:318-327 | The reverse deletion loop over the order computes the retained order |
| `TaskStores.TaskStore.CountFinished` | internal/daemon/tasks.go:312-317 | Counts the finished tasks of the order |
| `TaskStores.TaskStore.Get` | internal/daemon/tasks.go:344-349 | Finds exactly the tasks of the order |
| `TaskStores.TaskStore.List` | internal/daemon/tasks.go:352-369 | The newest tasks first, up to the limit; a limit of zero or less gives all |
| `TaskStores.TaskStore.CancelAll` | internal/daemon/tasks.go:332-342 | Every running task is asked to stop, no status changes |
| `TaskStores.AddKeepsRunningAndNewest` | internal/daemon/tasks.go:307-328 | After an add no running task is gone and at most 32 finished ones remain, the newest, in order |
| `Stages.Host.RunOpOnce` | internal/daemon/ops.go:1707-1727 | One command runs, streams into the task and is logged, with any answer |
| `Stages.RunStage` | internal/daemon/ops.go:1440-1458 | Attempts run in order until one succeeds or the deadline has passed; the answer is the success, else the first attempt's |
| `Stages.RunStages` | internal/daemon/ops.go:1525-1624 | The commands that ran, the response, the status code and every state the task showed are those of a staged run |
| `Stages.TakeStage` | internal/daemon/ops.go:1539-1587 | One stage is opened, reached and closed on the task |
| `Stages.ReachStage` | internal/daemon/ops.go:1539-1587 | A stage is built late if need be, idled when nothing is to do, or its attempts run |
| `Stages.OpenStage` | internal/daemon/tasks.go:146-158 | Opening stage k keeps the order succeeded*, one running, pending* in every state shown |
| `Stages.CloseStage` | internal/daemon/tasks.go:161-177 | Closing it keeps that order, and leaves none running |
| `Stages.CommandsAreStaged` | internal/daemon/ops.go:1525-1624 | A stage's commands run only after all earlier stages succeeded and all their commands are through |
| `Stages.CommandsAreAttempts` | internal/daemon/ops.go:1440-1458 | Every command that ran is an attempt of the stage it ran for |
| `Stages.FailedStageShowsFirstAttempt` | internal/daemon/ops.go:1440-1458 | A failed stage has run every attempt (unless the deadline passed), none succeeded, and the response carries the first one's output and exit code |
| `Stages.FollowsExtends` | internal/daemon/ops.go:1525-1624 | A staged run goes on stage by stage |
| `Stages.AccountedDone` | internal/daemon/ops.go:1525-1624 | The builders kept along the way add up to the response of the whole run, which is OK exactly when every stage succeeded or idled |
| `Stages.OutputIsJoined` | internal/daemon/ops.go:1525-1624 | The output holds what the stages' commands showed, the last one's when it succeeded and else the first one's, in plan order |
| `Stages.Slots.Acquire` | internal/daemon/ops.go:1640-1647 | A slot is taken exactly when one is free |
| `Stages.Slots.Release` | internal/daemon/ops.go:1649 | And given back |
| `Stages.DispatchTask` | internal/daemon/ops.go:816-849 | Without a free slot nothing runs; otherwise the slot is free again, the task succeeded exactly when every stage idled or ended in a command that did, is canceled exactly when its run was, and shows that output |
| `Stages.RunAsTask` | internal/daemon/ops.go:816-849 | The detached run: no stage is left running and the task leaves running exactly once |
| `Stages.FinishTask` | internal/daemon/tasks.go:196-220 | Finishing is the one state change out of running, at the end |
| `ComposeStores.ComposeStoreList` | internal/daemon/ops.go:1069-1082 | No store is asked twice |
| `ComposeStores.ComposeProjectStores` | internal/daemon/ops.go:1301-1318 | Exactly the stores that list the project, in probe order; fails exactly when an unanswered root store could have been read |
| `ComposeStores.ComposeProjectStore` | internal/daemon/ops.go:1328-1354 | Yields the store a step belongs in, and refuses exactly when there is none that is right |
| `ComposeStores.ChosenBelongs` | internal/daemon/ops.go:1301-1354 | The store chosen is the only one that lists the project; when none does, the fallback, or the daemon user's own, podman's before docker's; there is none while a root store that sudo could read has not answered |
| `ComposeStores.ComposeTools` | internal/daemon/compose_stacks.go:482-493 | One or two tools, all of the store's own runtime |
| `ComposeStores.ReachCount` | internal/daemon/ops.go:1375-1415 | How many tools of the preference order are in reach: an elevated step stops at the first that sudo may not run |
| `ComposeStores.ReachCountIs` | internal/daemon/ops.go:1375-1415 | The loop's stopping point is that number |
| `ComposeStores.ComposeAttempts` | internal/daemon/ops.go:1375-1415 | The attempts are a non-empty prefix of the preference order, elevated as the store is; refused exactly when the first tool is out of reach |
| `ComposeStores.StepSays` | internal/daemon/ops.go:1375-1415 | The command lines of a step, word by word: docker's own compose first, podman's standalone tool first, the project, its files, the arguments, and sudo for root's store |
| `ComposeStores.FilesInOrder` | internal/daemon/ops.go:980-988 | Each recorded file that can be found is named by its own flag, in order, relative ones in the project's directory |
| `ComposeStores.StepAddressesItsStore` | internal/daemon/ops.go:1375-1415 | Every attempt of a step, read back from its command line, addresses the step's store |
| `ComposeStores.ContainersBehind` | internal/daemon/ops.go:1179-1212 | The containers not running the image their reference resolves to now, one that resolves to nothing included, and whether there were any at all |
| `ComposeStores.Services` | internal/daemon/ops.go:1232-1260 | The services behind, each once |
| `ComposeStores.ServicesBehind` | internal/daemon/ops.go:1240-1256 | The loop names exactly those services, or none as soon as a container behind has no service |
| `ComposeStores.ServicesAreOutOfDate` | internal/daemon/ops.go:1179-1260 | The services named are exactly those of containers that are there and whose reference names no image, or another one than they run, or that do not run |
| `ComposeStores.ComposeUpdateRecreate` | internal/daemon/ops.go:1232-1260 | Exactly the services out of date, the whole project when there is no container or one of them has no service, nothing exactly when there are containers and none is out of date; always in the chosen store |
| `ComposeStores.PlanCompose` | internal/daemon/ops.go:465-760 | The compose verbs plan the chosen store only; a refusal means an unknown verb or a store out of reach |
| `ComposeStores.PlanTwo` | internal/daemon/ops.go:465-760 | Pull, then recreate, in one store; the recreate of an update is built when its turn comes |
| `ComposeStores.PlanContainerUpdate` | internal/daemon/ops.go:465-760 | Updating a compose container plans its project's store, with the store it was found in as fallback |
| `ComposeStores.VerbPlansOneStore` | internal/daemon/ops.go:465-760 | Every verb's plan is for one store throughout |
| `ComposeStores.PlanAddressesOneStore` | internal/daemon/ops.go:1375-1415 | All attempts of all stages, those built late included, address the plan's store |
| `ComposeStores.RunAddressesOneStore` | internal/daemon/ops.go:1375-1415 | Every command that a run of a plan executes, of stages built late too, reaches the plan's store |
| `ComposeStores.RunTouchesOneStore` | internal/daemon/ops.go:1375-1415 | At every point of a run all other stores hold what they held before |
| `ComposeStores.RunKeepsOneStore` | internal/daemon/ops.go:1301-1354 | No run of a plan, ended or under way, brings a project from at most one store to two, if and only if every store that holds it answered its listing or is the plan's own |
| `ComposeStores.TwoStoresAreRefused` | internal/daemon/ops.go:1328-1354 | A project listed in two stores is always refused |
| `ComposeStores.UnansweredStoreIsNotSeen` | internal/daemon/ops.go:1301-1318 | A run in which an unanswered store leads to a second copy |
| `Selection.PickOldest` | internal/cloud/service.go:2165-2200 | Oldest first up to a limit, as the ORDER BY and LIMIT of the queries |
| `Selection.OldestTakesAll` | internal/cloud/service.go:2165-2200 | A limit that is large enough leaves none out |
| `WebhookRelay.WebhookTable.EnqueueWebhook` | internal/cloud/service.go:1969-2004 | A valid request is queued as pending, an invalid one changes nothing |
| `WebhookRelay.WebhookTable.ListPendingWebhooks` | internal/cloud/service.go:2165-2200 | Exactly the oldest requests of the daemon that are pending or were leased more than 120 seconds ago, up to the limit, are returned and leased now; other leases of that age are taken back, all else is untouched |
| `WebhookRelay.WebhookTable.CompleteWebhook` | internal/cloud/service.go:2203-2224 | Stores the result, its error cut to 512, exactly for a leased request of the daemon |
| `WebhookRelay.StepKeepsInv` | internal/cloud/service.go:2165-2224 | Every step of cloud and daemons keeps the relay's accounts: crashes, late reports, late polls and other daemons' calls included |
| `WebhookRelay.RunKeepsInv` | internal/cloud/service.go:2165-2224 | So does every run |
| `WebhookRelay.ExecutionsAreBounded` | internal/daemon/relay.go:82-147 | A request is executed at most once plus once per failed report or crash; its result is stored exactly once, and only after an execution or a decode failure |
| `WebhookRelay.BatchIsStillLeased` | internal/daemon/relay.go:82-147 | A request of the current batch is still leased when reported, exactly unless an older report of it arrived late or a late poll took it back |
| `WebhookRelay.LateReportOvertakes` | internal/daemon/relay.go:82-147 | A run in which a report that was given up on lands while its request is in hand again |
| `WebhookRelay.StrayPollTakesBack` | internal/cloud/service.go:2165-2200 | A run in which a poll that was given up on takes back a request in hand and hands out an older one |
| `WebhookRelay.PollSkipsDone` | internal/cloud/service.go:2165-2200 | A poll neither returns nor touches a done request |
| `WebhookRelay.DoneIsFinal` | internal/cloud/service.go:2203-2224 | Done is never left and the stored result never changes |
| `WebhookRelay.OtherDaemonsDoNotInterfere` | internal/cloud/service.go:2165-2224 | Polls and reports of one daemon leave another's rows alone |
| `WebhookRelay.LeaseRunsOutExactly` | internal/cloud/service.go:2171-2195 | Over every run: a request leased at some time, neither done nor leased again since, is handed out by a poll only if more than 120 seconds have passed, and then it is, unless the poll is full |
| `WebhookRelay.RelayPoller.PollOnce` | internal/daemon/relay.go:82-97 | The sequential poller's loop is a run of the relay that ends with an empty batch |
| `WebhookRelay.RelayPoller.Process` | internal/daemon/relay.go:99-137 | Working off one request is a run that takes it from the front of the batch |
| `WebhookRelay.RelayPoller.Report` | internal/daemon/relay.go:139-147 | A report lands, fails, or is given up on |
| `Snapshots.ContainerStatusBatch` | internal/daemon/app.go:1153-1198 | The managed containers of the stores that answered, and the runtimes all of whose stores did, each once |
| `Snapshots.BatchEntriesAre` | internal/daemon/app.go:1153-1227 | A container is in the batch if and only if an answering store lists it and it is managed |
| `Snapshots.MatchManagedContainer` | internal/daemon/app.go:1200-1227 | Managed is what the allowlist names by exact name, prefix of the id or project, blank entries aside, and everything when it is empty |
| `Snapshots.NormalizeCovered` | internal/cloud/service.go:1119-1137 | Trimmed names, each once; refused exactly for too many, empty or overlong ones |
| `Snapshots.ValidateBatch` | internal/cloud/service.go:1047-1075 | Accepts exactly batches of valid, distinct ids |
| `Snapshots.IngestedAre` | internal/cloud/service.go:1075-1113 | Column by column: what a reported row shows, which rows go, which stay as they are |
| `Snapshots.CloudContainers.IngestContainerStatus` | internal/cloud/service.go:1047-1113 | An acceptable batch brings every reported row up to date in each column, retires the unmentioned ones of covered runtimes, and leaves the rest; any other changes nothing |
| `Snapshots.CoveredRuntimeIsExact` | internal/cloud/service.go:1089-1113 | After an ingest the rows of a covered runtime are exactly the reported ones |
| `Snapshots.ReconcileKeeps` | internal/cloud/service.go:1089-1113 | Other daemons' rows are untouched, first-seen times of surviving ids kept, tagged rows of uncovered runtimes survive, unreported survivors unchanged |
| `Snapshots.FullCoverage` | internal/cloud/service.go:1089-1113 | The whole table equals the report, if and only if every unreported row is untagged or of a covered runtime |
| `Snapshots.HostIdsAreReported` | internal/daemon/app.go:1128-1227 | The batch reports exactly the managed containers the host could enumerate |
| `Snapshots.TickShowsHost` | internal/daemon/app.go:1128-1198 | A delivered tick leaves of every managed container what its store listed of it, in every column |
| `Snapshots.TickMatchesHost` | internal/daemon/app.go:1128-1198 | Daemon and cloud composed: after a delivered tick a covered runtime's rows are the host's managed containers of it, as the host shows them |
| `Snapshots.TickKeepsTags` | internal/cloud/service.go:1047-1113 | A tick brings in no row of a runtime outside those the snapshots list |
| `Snapshots.HistoryKeepsTags` | internal/cloud/service.go:1047-1113 | Nor does any history of ticks |
| `Snapshots.FullSnapshotConverges` | internal/cloud/service.go:1047-1113 | After any history, lost batches included, a delivered snapshot of full coverage makes the table equal to the host's managed set, as the host shows it |
| `Disconnects.LatestDisconnect` | internal/cloud/service.go:1189-1311 | The newest disconnect notification of any source |
| `Disconnects.DaemonService.CreateDaemon` | internal/cloud/service.go:550-590 | A new daemon is enabled and was never seen |
| `Disconnects.DaemonService.IngestMetric` | internal/cloud/service.go:859-966 | An accepted metric marks the daemon seen and connected, and notes a reconnect exactly when it was disconnected; the call fails after that when the preference cannot be looked up |
| `Disconnects.DaemonService.UpdateDaemon` | internal/cloud/service.go:684-708 | Disabling clears the disconnect mark, enabling or omitting does not |
| `Disconnects.DaemonService.DisableDaemon` | internal/cloud/service.go:728-747 | So does the disable call |
| `Disconnects.EvaluationIs` | internal/cloud/service.go:1189-1311 | What an evaluation leaves of a daemon, told of the daemon alone |
| `Disconnects.DaemonService.EvaluateDisconnected` | internal/cloud/service.go:1189-1311 | Every enabled daemon whose preference was found is marked exactly when it is silent for the threshold; a notification is stored exactly when it was not marked, the preference is no rejection, and no disconnect notification is younger than the cooldown |
| `Disconnects.DaemonService.EvaluateOne` | internal/cloud/service.go:1220-1311 | The same for one enabled daemon, with the threshold and the cooldown in force; no other daemon changes |
| `Disconnects.EvaluationKeepsInv` | internal/cloud/service.go:1189-1311 | An evaluation stores an alarm only a cooldown after the last one and after a metric or disable in between |
| `Disconnects.RunKeepsInv` | internal/cloud/service.go:859-1311 | Over any sequence of calls with a clock that does not run back |
| `Disconnects.AlarmsAreSpaced` | internal/cloud/service.go:1189-1311 | Two alarms of one daemon are at least the cooldown apart and separated by an accepted metric or a disable |
| `Disconnects.EpochCounts` | internal/cloud/service.go:859-966 | What separates them is counted by exactly the accepted metrics and disables |
| `Disconnects.OnlyMetricsAndDisablesClear` | internal/cloud/service.go:684-966 | Nothing else clears a disconnect mark |
| `Disconnects.ReconnectOnlyAfterDisconnect` | internal/cloud/service.go:859-966 | A reconnect is stored only by a metric that found the daemon disconnected |
| `Disconnects.EvaluationMarksStale` | internal/cloud/service.go:1189-1311 | Marked if and only if stale; nothing else of the daemon changes |
| `CloudTerminal.TerminalTable.CreateTerminalSession` | internal/cloud/terminal.go:164-243 | A pending session with its ticket's expiry, exactly when relaying is on, the size is sane and the workspace is below its cap |
| `CloudTerminal.TerminalTable.AuthenticateTerminalTicket` | internal/cloud/terminal.go:249-287 | Succeeds exactly for the session's unexpired ticket, and the swap then cannot hit again |
| `CloudTerminal.TerminalTable.ListPendingTerminalSessions` | internal/cloud/terminal.go:293-328 | The oldest sessions to pick up, which become offered |
| `CloudTerminal.PickUpIs` | internal/cloud/terminal.go:293-328 | Row by row: pending sessions younger than three minutes are offered, the oldest first and at most eight, offers of 90 seconds ago lapse, all else is untouched |
| `CloudTerminal.TerminalTable.AttachTerminalAgent` | internal/cloud/terminal.go:332-363 | A live session of the daemon becomes active; its start is stamped once |
| `CloudTerminal.TerminalTable.FinishTerminalSession` | internal/cloud/terminal.go:367-390 | A live session ends with exactly the reported status, code and counts, its failure text cut to 512; any other status is refused |
| `CloudTerminal.TerminalTable.CloseTerminalSession` | internal/cloud/terminal.go:418-441 | A revoke ends a live session |
| `CloudTerminal.TerminalTable.SweepTerminalSessions` | internal/cloud/terminal.go:447-474 | Three updates in a row: no over-age live row is left, long-ended rows are pruned |
| `CloudTerminal.SweepIs` | internal/cloud/terminal.go:447-474 | Row by row: a session fails when not picked up in three minutes or active for a day, and goes a week after its end |
| `CloudTerminal.StepMoves` | internal/cloud/terminal.go:164-474 | Every call moves every row forward only; only a sweep removes rows, and only ended ones |
| `CloudTerminal.StepCreates` | internal/cloud/terminal.go:164-243 | Only a create brings a row into being, pending, under an id never used |
| `CloudTerminal.StepKeepsCap` | internal/cloud/terminal.go:203-232 | Live rows of a workspace stay within the cap |
| `CloudTerminal.StepKeepsTickets` | internal/cloud/terminal.go:249-287 | With read and compare-and-swap interleaved, a row that still has a ticket accepted no handshake |
| `CloudTerminal.RunKeepsInv` | internal/cloud/terminal.go:164-474 | Every run keeps all of it |
| `CloudTerminal.EveryRun` | internal/cloud/terminal.go:164-474 | At most one handshake of a session ever succeeds; live rows within the cap; active has a start; an end exactly on ended rows |
| `CloudTerminal.RowsOnlyMoveForward` | internal/cloud/terminal.go:164-474 | Over runs: ended rows keep status, times and result until pruned, and pruned ids never come back |
| `CloudTerminal.NeverBackFromActive` | internal/cloud/terminal.go:293-363 | Pending and offered alternate only before active |
| `CloudTerminal.EndsExactly` | internal/cloud/terminal.go:367-474 | A live session stops being live by a finish, a revoke or a sweep that fails it, and by nothing else |
| `CloudTerminal.LiveUnlessEnded` | internal/cloud/terminal.go:367-474 | Over runs: a live session is still live later if and only if no such call came in between |
| `CloudTerminal.HitHonoursTheChecksExactly` | internal/cloud/terminal.go:246-276 | A swap that hits finds its session live and its ticket unexpired if and only if no call ended the session since the read and the swap comes within the lifetime |
| `CloudTerminal.HandshakeMayOutliveItsSession` | internal/cloud/terminal.go:276 | A run in which a handshake succeeds on a session revoked between its read and its swap |
| `TerminalAttach.UpdateInTimeIsAnAttach` | internal/cloud/terminal.go:350-356 | An update that finds its row pending or offered is the whole attach at that moment |
| `TerminalAttach.ActiveExactlyByAttach` | internal/cloud/terminal.go:332-363 | A live session becomes active by an attach of its daemon and by nothing else |
| `TerminalAttach.SplitAttachRevivesExactly` | internal/cloud/terminal.go:339-356 | An update that comes after other calls revives an ended session, or stamps its start again, if and only if the row read was not active and a call ended it, or another attach came, in between |
| `TerminalAttach.AttachMayReviveItsSession` | internal/cloud/terminal.go:350-356 | A run in which a session revoked between an attach's read and its update is active again |
| `TerminalAttach.EverySplitRun` | internal/cloud/terminal.go:164-474 | With any number of attaches interleaved: still at most one handshake of a session succeeds, active rows have a start and ended ones an end, and live rows exceed the cap by the revived ones at most |
| `TerminalAttach.SplitStepKeepsInvExactly` | internal/cloud/terminal.go:332-363 | A statement keeps all that is promised of the calls if and only if it revives nothing |
| `TerminalAttach.SplitRunKeepsInvExactly` | internal/cloud/terminal.go:332-363 | So it holds throughout a run if and only if no update revives |
| `TerminalAttach.SplitStepMovesExactly` | internal/cloud/terminal.go:332-363 | A row moves forward in a statement if and only if the statement neither revives it nor stamps its start again |
| `TerminalAttach.SplitRunMovesExactly` | internal/cloud/terminal.go:332-363 | And throughout a run if and only if no update does, whatever happens to other rows |
| `TerminalAttach.InTimeIsAtomic` | internal/cloud/terminal.go:332-363 | A run whose updates find their rows still waiting is a run of whole calls |
| `TerminalWait.TerminalWaiters.WakeTerminalWaiters` | internal/cloud/terminal.go:148-157 | Leaves a token in the registered poll's channel |
| `TerminalWait.TerminalWaiters.TerminalWait` | internal/cloud/terminal.go:485-496 | Registers the daemon's channel: a registered one is used again with the new time, else a new one is made |
| `TerminalWait.TerminalWaiters.Park` | internal/cloud/terminal.go:497-511 | Returns whether it took a token, and releases |
| `TerminalWait.TerminalWaiters.ReleaseTerminalWait` | internal/cloud/terminal.go:516-530 | Removes its own registration only, and prunes quiet ones |
| `TerminalWait.TerminalWaiters.PruneQuiet` | internal/cloud/terminal.go:522-529 | The deletion loop over the map removes exactly the quiet registrations |
| `TerminalWait.PruneSparesTimely` | internal/cloud/terminal.go:516-530 | A registration of the last hour survives pruning |
| `TerminalWait.StepLosesNothing` | internal/cloud/terminal.go:148-530 | No step of creators or other polls loses a wake-up of a timely poll |
| `TerminalWait.RunLosesNothing` | internal/cloud/terminal.go:148-530 | Nor does any run |
| `TerminalWait.StepKeepsShape` | internal/cloud/terminal.go:148-530 | Every poll and registration keeps a channel made for its daemon |
| `TerminalWait.NoLostWakeUp` | internal/cloud/terminal.go:485-530 | Of a session inserted since the poll registered, the wake is yet to come or the park can return true; then it can return false if and only if its time is up |
| `TerminalWait.ListShowsTheOldest` | internal/cloud/terminal.go:306-312 | The list misses a waiting session only when it is full of sessions at least as old |
| `TerminalWait.WakeReachesOpenPoll` | internal/cloud/terminal.go:148-157 | And its wake, when it comes, reaches the open poll's channel |
| `TerminalWait.PrunedPollMissesItsWake` | internal/cloud/terminal.go:516-530 | When another poll's release prunes, the wake reaches this one if and only if it is not older than an hour |
| `TerminalWait.TimerMayBeatTheWake` | internal/cloud/terminal.go:497-511 | A run in which the timer ends the park between insert and wake |
| `TerminalSession.StepKeepsInv` | internal/daemon/terminal.go:401-498 | Every step of reader, reaper, pump and closers keeps the session's invariant |
| `TerminalSession.RunKeepsInv` | internal/daemon/terminal.go:401-498 | So does every interleaving |
| `TerminalSession.ClosedOnce` | internal/daemon/terminal.go:401-498 | closing, done, out and readDone are closed at most once, and at most one audit entry is written |
| `TerminalSession.OneWinner` | internal/daemon/terminal.go:401-416 | Of all closers at most one gets past the flag |
| `TerminalSession.WinningCloseReleases` | internal/daemon/terminal.go:401-449 | When the winner returns the session is unmapped, audited and finished, with done closed exactly unless the reaper is between finishing and closing it |
| `TerminalSession.CloseMayReturnBeforeDone` | internal/daemon/terminal.go:477-498 | A run that reaches that exception |
| `TerminalSession.DeliveryIsAPrefix` | internal/daemon/terminal_ws.go:229-330 | Delivered chunks are an in-order prefix of those read, and after the exit frame come only error frames |
| `TerminalSession.ExitIsLastExactly` | internal/daemon/terminal_ws.go:226-302 | An exit frame is followed by nothing in any continuation, if and only if the connection is closed or the read loop has ended |
| `TerminalSession.ErrorMayFollowExit` | internal/daemon/terminal_ws.go:352-362 | A run in which an error frame follows it |
| `TerminalSession.ExitCarriesTheShellsCode` | internal/daemon/terminal.go:472-498 | The exit frame carries the code the shell exited with, if and only if the reaper finished the session first; a closer that did leaves 0 |
| `TerminalSession.ExitCarriesTheWinnersReason` | internal/daemon/terminal.go:401-412 | Its reason is what the closer that won asked with, or none before a close was won |
| `TerminalSession.DeliveredAllWhen` | internal/daemon/terminal_ws.go:296-330 | After the exit frame all output was delivered if and only if the queue is empty, the reader holds nothing and dropped nothing |
| `TerminalSession.NormalExitDeliversAll` | internal/daemon/terminal_ws.go:229-330 | All is delivered when the reader ended before finish, no close intervened and no write failed |
| `TerminalSession.WaitingReaperIsReaderFirst` | internal/daemon/terminal.go:477-484 | A reaper that waited for the reader finishes after it |
| `TerminalSession.TerminalManager.Open` | internal/daemon/terminal.go:194-237 | Refuses at the cap, adds the session otherwise, and live sessions never exceed the cap |
| `TerminalSession.TerminalManager.Remove` | internal/daemon/terminal.go:430-432 | A close takes its own session out |
| `TerminalSession.MapFollowsSessions` | internal/daemon/terminal.go:194-432 | Of all steps of all sessions, opening adds to the map, the unmap of a close removes, and nothing else touches it |
| `TerminalSession.MapStaysWithinCap` | internal/daemon/terminal.go:194-432 | However opens and the threads of all sessions interleave, the map stays within the cap and names a session exactly until its winning close has unmapped it |
| `StreamHub.PushLocked` | internal/daemon/stream.go:199-212 | Even with a racing consumer the frame ends up queued as the newest, and a full queue gives up its oldest: all before the lost frame was received |
| `StreamHub.PushKeepsOrder` | internal/daemon/stream.go:199-212 | Received plus queued frames stay an in-order subsequence of those pushed |
| `StreamHub.ConsumingKeepsOutlook` | internal/daemon/stream.go:199-212 | A consumer only moves frames from the queue to what it received |
| `StreamHub.SharedFrameIsEverySlice` | internal/daemon/stream.go:145-188 | The shared frame gives each subscriber its own slice, if and only if the scan did not take a real limit for a subscriber of limit -1 |
| `StreamHub.NonNegativeLimitsNeverMisfire` | internal/daemon/stream.go:265-277 | With the limits the query parser lets through it always does |
| `StreamHub.Hub.Subscribe` | internal/daemon/stream.go:69-104 | A new open channel under the trimmed types, each once; buckets stay exact |
| `StreamHub.NamedAre` | internal/daemon/stream.go:72-85 | The types are the given names, trimmed, blank ones left out |
| `StreamHub.Hub.Enlist` | internal/daemon/stream.go:91-102 | The subscriber is in the bucket of each type it wants and in no other |
| `StreamHub.Hub.Unsubscribe` | internal/daemon/stream.go:109-128 | Closes the channel exactly once and leaves no bucket naming it |
| `StreamHub.Hub.PushAll` | internal/daemon/stream.go:190-195 | Each target gets its frame, nobody else anything |
| `StreamHub.Hub.Broadcast` | internal/daemon/stream.go:134-138 | Exactly the subscribers that want the event get its frame |
| `StreamHub.Hub.BroadcastProcesses` | internal/daemon/stream.go:145-188 | Each process subscriber gets the rows the scan decides, others nothing; with no limit below zero that is the slice of its own limit |
| `StreamHub.Hub.ScanLimits` | internal/daemon/stream.go:152-164 | The early-exit scan agrees with a scan of the whole bucket in some order |
| `StreamHub.Hub.Receive` | internal/daemon/stream.go:284-361 | A consumer takes frames from the front |
| `StreamHub.ChannelGuarantee` | internal/daemon/stream.go:199-212 | For every channel: received and queued are an in-order subsequence of what was pushed, the newest frame never lost |
| `FilePaths.SplitSlashed` | internal/daemon/files.go:258-293 | A rendered path splits into its components |
| `FilePaths.CleanIdempotent` | internal/daemon/files.go:258-293 | Cleaning twice is cleaning once; a cleaned path is absolute with the same components |
| `FilePaths.OnePartMore` | internal/daemon/files.go:258-293 | One more part of a path names a child, climbs but never above the top, or stays |
| `FilePaths.NoParts` | internal/daemon/files.go:258-293 | The root is clean and has no components |
| `FilePaths.PathInsideIsContainment` | internal/daemon/files.go:296-304 | The prefix test on clean paths is containment of components, with no false friends |
| `FilePaths.PolicyRoots` | internal/daemon/files.go:139-168 | Configured roots are cleaned |
| `FilePaths.Resolve` | internal/daemon/files.go:258-293 | The first of the longest roots that contain the cleaned path; NUL, relative and outside paths are refused |
| `FilePaths.ResolvedTargetRejoins` | internal/daemon/files.go:258-304 | The target lies in its root, and joining root and relative path gives the cleaned path |
| `FilePaths.Window` | internal/daemon/files.go:495-541 | When a read window is granted, and how long it is: never past the end or the cap |
| `FilePaths.Read` | internal/daemon/files.go:469-485 | A granted read is that slice of the file |
| `FilePaths.ReadInPages` | internal/daemon/files.go:469-541 | Paging with any positive limit up to the cap ends after the least possible number of pages and concatenates to the file |
| `FilePaths.ReadDirLimited` | internal/daemon/files.go:783-802 | The first min(limit, n) entries, truncated exactly when n exceeds the limit |
| `FileCopy.FileSystem.MkdirAll` | internal/daemon/files.go:683-686 | Only missing parents on the way are made; fails on an entry of another kind |
| `FileCopy.FileSystem.ReadDir` | internal/daemon/files.go:687-695 | The names of the directory, each once, in any order |
| `FileCopy.FileSystem.Symlink` | internal/daemon/files.go:707-720 | A link is made where nothing was, in an existing directory |
| `FileCopy.FileSystem.CopyFileContents` | internal/daemon/files.go:733-748 | The destination gets what opening the source reads; a failure leaves at most a partial file there |
| `FileCopy.FileSystem.CopyFileTree` | internal/daemon/files.go:683-728 | The destination subtree equals the source subtree, kind by kind, and all else but created parents is untouched; inside its own source it never succeeds, outside it succeeds when nothing else fails |
| `FileCopy.FileSystem.CopyEntry` | internal/daemon/files.go:696-726 | One entry by its kind: directory, link, regular file, anything else skipped; the entry that leads to the destination fails |
| `FileCopy.FileSystem.CopyAny` | internal/daemon/files.go:668-677 | The source is unchanged; the copy has its tree exactly for a directory or a regular file; a directory is copied exactly when the destination is not inside it |
| `FileCopy.FileSystem.Copy` | internal/daemon/files.go:638-678 | When the request is refused, missing, in conflict or done, and what each leaves; a directory that can be copied is, if and only if the place the destination's path leads to is not inside it |
| `FileCopy.TreeExtends` | internal/daemon/files.go:696-726 | A copied subdirectory extends the copy by one name |
| `FileCopy.LeafExtends` | internal/daemon/files.go:696-726 | So does a copied file or link, and a skipped entry |
| `FileCopy.SoFarIsAll` | internal/daemon/files.go:696-728 | With every name through, the trees are the same |
| `FileCopy.KindByKind` | internal/daemon/files.go:696-726 | Entry by entry: a directory is there as one, a file with its content, a link with its target, and nothing else is |
| `FileCopy.NoCopyInsideItself` | internal/daemon/files.go:638-678 | Whatever was done, with the source as it was its tree cannot stand at a place inside it |
| `FileCopy.NoLinkToFollow` | internal/daemon/files.go:654-663 | A path that does not end in a link leads to the same entry whether links at the end are followed or not |
| `FileCopy.PlainPathLeadsToItself` | internal/daemon/files.go:651-653 | Without links among its parents a path leads to where it is spelled |
| `FileCopy.GuardSuffices` | internal/daemon/files.go:651-653 | Without links among the parents of both paths, the lexical check means that the destination is not inside the source |
| `FileCopy.LinkedParentPassesTheGuard` | internal/daemon/files.go:651-653 | A tree with a link to the source, where a destination through the link passes the check and leads inside the source |
| `ConfigPatch.MatchesIsKey` | internal/daemon/config_api.go:406-407 | The regular expression matches exactly the lines that are read as assigning the key |
| `ConfigPatch.AssignmentReads` | internal/daemon/config_api.go:408 | A written line reads back as that key with that value, at its indentation |
| `ConfigPatch.BareAlphabet` | internal/daemon/config_api.go:406 | A bare key is spelled in letters, digits, underscores and dashes |
| `Text.SpacesAre` | internal/daemon/config_api.go:385-400 | The characters that trimming takes for white space |
| `ConfigPatch.SpelledAssignment` | internal/daemon/config_api.go:406-408 | A key between white space before an equals sign is an assignment of that key and of no other, and rewriting keeps its indentation |
| `ConfigPatch.SpelledComment` | internal/daemon/config_api.go:406-408 | A comment assigns nothing |
| `ConfigPatch.DaemonLineIsHeader` | internal/daemon/config_api.go:385-400 | What the source takes for a header is one, and assigns no key |
| `ConfigPatch.ReplaceLine` | internal/daemon/config_api.go:403-416 | An unwritten patched key's line is rewritten once, whatever the order of the map |
| `ConfigPatch.FlushMissing` | internal/daemon/config_api.go:377-383 | Exactly the unwritten keys are appended, in the order of the map |
| `ConfigPatch.PatchEachLine` | internal/daemon/config_api.go:385-426 | The loop computes the patched document: verbatim up to [daemon], first assignments replaced, missing keys, verbatim from the next header on |
| `ConfigPatch.PatchDaemonSection` | internal/daemon/config_api.go:371-428 | The same for the text, split and joined at newlines |
| `ConfigPatchLaws.ReadAround` | internal/daemon/config_api.go:365-370 | Reading is compositional around a table |
| `ConfigPatchLaws.BindingsOfReplaced` | internal/daemon/config_api.go:403-416 | With unique keys, replacing lines updates exactly their bindings |
| `ConfigPatchLaws.BindingsOfMissing` | internal/daemon/config_api.go:377-383 | The appended lines bind their keys, in any order |
| `ConfigPatchLaws.PatchIsTheUpdate` | internal/daemon/config_api.go:365-428 | As TOML reads it, every patched key has its new value in [daemon] and every other lookup is unchanged, if and only if the headers that matter are spelled as the source expects |
| `ConfigPatchLaws.PatchedTextReads` | internal/daemon/config_api.go:365-428 | The same for the file's text |
| `ConfigPatchLaws.OrderDoesNotMatter` | internal/daemon/config_api.go:377-383 | What is read back does not depend on the map's iteration order |
| `ConfigPatchLaws.PatchTwice` | internal/daemon/config_api.go:371-428 | Patching twice is patching once, line for line, whatever the two orders |
| `ConfigPatchLaws.PatchTextTwice` | internal/daemon/config_api.go:371-428 | And as text |
| `ConfigPatchLaws.UntouchedLinesSurvive` | internal/daemon/config_api.go:365-370 | Assignments of patched keys aside, every line survives in order and at most a header is added |
| `ConfigPatchLaws.CommentedDaemonHeader` | internal/daemon/config_api.go:387 | A commented [daemon] header is not recognised |
| `ConfigPatchLaws.CommentedNextHeader` | internal/daemon/config_api.go:386 | Nor is a commented header after it |
| `ImageRef.ParsedIsCanonical` | internal/daemon/imageref.go:53-106 | Whatever parses has a valid host, a valid repository, and a tag or a digest |
| `ImageRef.ParseAfterParse` | internal/daemon/imageref.go:121-127 | Printing a parsed reference and parsing it gives it back, dropping only the tag of a pinned one |
| `ImageRef.PrintedParsesBack` | internal/daemon/imageref.go:53-127 | The same for every canonical reference |
| `ImageRef.ReproducedExactly` | internal/daemon/imageref.go:53-127 | Print and parse reproduce a value if and only if it is canonical without both tag and digest |
| `ImageRef.PrintedFormIsFixed` | internal/daemon/imageref.go:121-127 | The printed form is a fixpoint |
| `ImageRef.BareNameIsLibraryLatest` | internal/daemon/imageref.go:88-105 | A bare name is the latest image of Docker Hub's library |
| `ImageRef.FirstSegmentIsHost` | internal/daemon/imageref.go:73-82 | The first of several segments is the registry host exactly when it holds a dot or a colon, or is localhost |
| `ImageRef.HubAliases` | internal/daemon/imageref.go:91-96 | Every spelling of Docker Hub is docker.io |
| `ImageRef.LowerCaseAlphabet` | internal/daemon/imageref.go:42-45 | The letters and digits of the patterns |
| `ImageRef.UpperCaseAlphabet` | internal/daemon/imageref.go:42-45 | And the capitals |
| `ImageRef.OtherAlphabets` | internal/daemon/imageref.go:42-45 | And what else each pattern admits |
| `ImageRef.ComponentsGrow` | internal/daemon/imageref.go:42 | A word, a separator and a component make a component exactly if the separator is a dot, one or two underscores, or dashes |
| `ImageRef.TagBounds` | internal/daemon/imageref.go:43 | A tag has 1 to 128 characters and starts with neither dot nor dash |
| `ImageRef.DigestBounds` | internal/daemon/imageref.go:44 | A digest is an algorithm, a colon and at least 32 hexadecimal digits |
| `ImageRef.HostBounds` | internal/daemon/imageref.go:45 | A host starts with a letter or a digit |
| `ImageRef.ParsersAgreeOnPrinted` | internal/daemon/imageref.go:139-162 | On every pinned printed reference the name@digest parser agrees |
| `ImageRef.ParsersAgreeExactly` | internal/daemon/imageref.go:139-162 | On a raw pinned reference the two agree if and only if it spells no tag |
| `ImageRef.ResolveUpdateQuery` | internal/daemon/updatecheck.go:280-313 | The first recorded digest of the same repository, else the only one, under the reference's own tag or latest when it has none; else a refusal that says which |
| `ImageRef.PrintedPullIsRecognised` | internal/daemon/updatecheck.go:280-296 | An image recorded in the daemon's own spelling is recognised as the same repository |
| `ImageRef.OwnQueryParses` | internal/daemon/updatecheck.go:280-296 | A query about the own repository is itself a valid reference |
| `LogDelivery.AcceptTail` | internal/daemon/logs.go:420-433 | The in-place filter keeps exactly the lines after the cursor, in order |
| `LogDelivery.ContainerLogStore.Append` | internal/daemon/logs.go:206-227 | The ring is the last 1000 lines, the cursor the newest timestamp; other containers are untouched |
| `LogDelivery.Extended` | internal/daemon/logs.go:217-222 | The loop appends all lines and follows the newest timestamp |
| `LogDelivery.ContainerLogStore.Snapshot` | internal/daemon/logs.go:271-288 | The newest lines up to the limit, 200 for a limit out of range |
| `LogDelivery.ContainerLogStore.Capture` | internal/daemon/logs.go:332-433 | A tick captures exactly the printed lines after the cursor and appends them |
| `LogDelivery.RingIsTheTail` | internal/daemon/logs.go:206-227 | Over every run the ring is the tail of all that was captured |
| `LogDelivery.CursorNeverBack` | internal/daemon/logs.go:420-433 | The cursor never moves back |
| `LogDelivery.CursorBounds` | internal/daemon/logs.go:420-433 | No captured line is at or before the cursor its tick started from, none after the cursor it leaves |
| `LogDelivery.CapturesAdvance` | internal/daemon/logs.go:420-433 | Lines of a later tick are newer than all of an earlier one: none is captured twice |
| `LogDelivery.TickCapturesTheNewLines` | internal/daemon/logs.go:365-433 | A tick captures exactly the new lines of a log in time order, if and only if the first of them has a timestamp of its own |
| `LogDelivery.EveryLineOnce` | internal/daemon/logs.go:332-433 | With a timestamp of its own on each line, a run captures the log from the backfill on, each line once, in order |
| `LogDelivery.LogUploadBuffer.Add` | internal/daemon/logs.go:135-144 | The queue is the last 5000 of what waited and what came |
| `LogDelivery.AddedAtTheEnd` | internal/daemon/logs.go:135-144 | The added lines wait last, in order, each under its container, and at most 5000 wait |
| `LogDelivery.LogUploadBuffer.BeginFlush` | internal/daemon/logs.go:146-163 | When a flush is due, and what it takes |
| `LogDelivery.LogUploadBuffer.EndFlush` | internal/daemon/logs.go:166-170 | What an acknowledged flush removes |
| `LogDelivery.LogUploadBuffer.Flush` | internal/daemon/logs.go:146-171 | What was acknowledged and what waits is what waited before |
| `LogDelivery.QueueConserves` | internal/daemon/logs.go:135-171 | Over every run: what left the queue, in order, and what waits is all that was added |
| `LogDelivery.DeliveryOverRuns` | internal/daemon/logs.go:135-171 | The queue is a suffix of everything added, at most 5000 long; acknowledged followed by pending is an in-order selection, complete without trims |
| `LogDelivery.OnlyOverflowTrims` | internal/daemon/logs.go:135-144 | Lines go missing exactly when an addition overflows the cap |
| `LogDelivery.FailedFlushLosesNothing` | internal/daemon/logs.go:163-165 | A flush that fails or is not due loses nothing |
| `LogDelivery.AddingDuringAFlush` | internal/daemon/logs.go:162-170 | Additions during a publish leave the queue as if they came after it, if and only if they do not overflow it |

## Left out

- HTTP and Gin handlers, WebSocket handshakes, SSE, gRPC, NATS and GORM: tables are maps, a call is its WHERE and UPDATE.
- Subprocesses, sudo, PTYs, signals, runtime probes and `os.Root`: their results are free choices or parameters.
- Secrets, bcrypt, HMAC and credentials checks: a ticket's hash stands for the ticket.
- Registry exchange, JSON and YAML decoding, compose file scanning, `WebhookExecutor` and the privileged helper, which are not part of this model.
- Config loading and validation, database metrics, health scoring, log alerts, on-disk log files, localization: easy members.
- Integer widths: byte counters, sizes and offsets are unbounded.
- Environment variables of attempts, displayed timestamps, names and ids of views, and permission bits.
- TaskStores.TaskStore.Add: requires an id that is not stored; ids are drawn from 96 random bits, and a repeated one is not modelled.
- Disconnects.DaemonService.IngestMetric: credentials, the validation of the sample and the minimum poll interval are one flag that lets the metric pass or not.
- Tasks.FollowerHoldsASegment: chunks travel as JSON strings, in which a character cut in two at the end of a chunk is replaced; the byte counts are a client's own as long as chunks end between characters.
- ComposeStores.PlanCompose: the validation of the project name and the lookup of its directory come before it and are not part of this model.
- ComposeStores.PlanContainerUpdate: finding the container and reading its compose labels come before it and are not part of this model.
- Stages.DispatchTask: one run at a time; runs of several tasks do not interleave, and adding the task to the store is `TaskStores.TaskStore.Add`.
- ConfigPatch.PatchEachLine: documents with two `[daemon]` lines, which TOML forbids, are excluded.
- CloudTerminal.TerminalTable.CreateTerminalSession: the checks on the request's shell, user and tmux strings are not modelled; the terminal size and the cap are.
- CloudTerminal.EveryRun: service calls are atomic but for the handshake; the count-then-insert of the cap is one step. `TerminalAttach` takes attaches apart.
- CloudTerminal.HitHonoursTheChecksExactly: the swap is the handshake's own; that no other handshake of the session hit first is its hypothesis.
- Snapshots.CloudContainers.IngestContainerStatus: a batch that names an id twice is refused, standing for the database's own refusal of a duplicate key in one upsert; text is characters, so lengths are counted in characters and invalid UTF-8 does not occur.
- Snapshots.NormalizeCovered: lengths are counted in characters, and invalid UTF-8 does not occur.
- Snapshots.ValidateBatch: lengths are counted in characters, and invalid UTF-8 does not occur.
- FileCopy.FileSystem.Copy: overwriting an existing destination, which merges into it, is not modelled; links are followed as relative paths inside the root, and one that leads out of it or is absolute leads nowhere.
- FileCopy.FileSystem.CopyFileContents: an existing destination file, which the source truncates, is excluded with overwriting.
- FileCopy.FileSystem.CopyFileTree: an existing destination directory, which the source merges into, is excluded with overwriting; how deep a copy inside itself gets is bounded by the directories that can be open at once.
- FileCopy.FileSystem.CopyAny: an existing destination is excluded with overwriting.
- ConfigPatch.PatchDaemonSection: documents with two `[daemon]` lines, which TOML forbids, are excluded.
- ConfigPatchLaws.PatchIsTheUpdate: values are on one line each, and quoted keys and table names are compared as they are spelled.
- ConfigPatchLaws.PatchedTextReads: the same.
- TerminalSession.DeliveryIsAPrefix: the pump may take its steps in any order, which allows more interleavings than its `select` loop has.
- TerminalSession.ExitIsLastExactly: the hello frame, pings and the close frame carry nothing of the session and are left out.
- StreamHub.Hub.BroadcastProcesses: encoding rows to JSON, and its failure, is left out; a frame carries its rows.
- LogDelivery.EveryLineOnce: what one tail command prints is captured whole; the source's buffer ends at 256 KiB, and what is cut, or fails, when a container logs more than that between two ticks is not modelled.
- LogDelivery.ContainerLogStore.Append: the files the lines are also written to are not part of this model.
- TerminalSession.TerminalManager.Open: starting the shell is one outcome, started or not.
- WebhookRelay.WebhookTable.EnqueueWebhook: credentials and their scopes come before it and are not part of this model.
- Disconnects.DaemonService.CreateDaemon: the checks on quota, workspace and name come before it and are not part of this model.
- Disconnects.DaemonService.UpdateDaemon: only the enabled flag is modelled; the name and other fields are not.
- Stages.Host.RunOpOnce: the limits on captured output and the environment of a command are not modelled.
- FileCopy.FileSystem.CopyEntry: an entry that exists at the destination is excluded with overwriting.
- Stages.RunStages: audit entries, durations, counters and the notification of a failure are left out.
