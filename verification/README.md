# Verification model of the OpenAgent backend

OpenAgent runs agents for organizations: tasks with dependencies and delegation, tools that may need a
human's approval, memories that are consolidated as they arrive, schedules, a worker pool, documents cut into
chunks, and a WebSocket hub shared by several instances through Redis. This project models the parts of the
backend whose correctness spans several functions, tables or processes, and proves properties of them in
Dafny. `dafny verify dfyconfig.toml` checks everything.

Tables are maps and sequences with the constraints of the migrations; a statement is one atomic step. Code
that changes things step by step is a method, with the source's loops, proved against a function on values;
the theorems are lemmas about these functions and about runs of arbitrary length. What the code reads from
outside (clock, model, provider, embedder, generated ids, success of a statement) is a parameter, and the
theorems hold for every value of it.

| files | part of the backend |
|---|---|
| `ToolProtocol`, `ToolSafety`, `ToolService`, `ToolStranding` | tool executions and approvals: a state machine over single statements of any number of concurrent callers and handlers, its safety, and the service that refines it |
| `TaskGraph`, `TaskStore`, `TaskRuns` | tasks, dependencies, delegation, evaluation |
| `FanOut` | the hub, and many hubs connected through Redis |
| `Scheduler`, `WorkerPool` | triggers and claims, the worker pool |
| `AgentLoop`, `AgentRounds` | the loop of one agent run, and what each iteration comes to |
| `Options` | a value that may be missing |
| `Text`, `Lcs`, `Similarity`, `SimilarityLaws`, `TrimInvariance` | comparing two memory texts |
| `Memories`, `MemoryTheorems`, `MemoryExample` | consolidation of memories |
| `ContextMemories` | the memories in an agent's prompt |
| `Normalize`, `Chunking` | normalising documents and cutting them into windows |

## Where the code does not do what it seems to promise

Each point is proved, not only observed; the names are those of the table below.

- A repeated `Consolidate` can add a row. `RepeatAddsRowIff` gives the exact condition and `MemoryExample` the
  inputs.
- An update never supersedes the old memory (`LiveRowsStayLive`): the statement names a UUID that belongs to
  no row, so the foreign key of migration 14 refuses it. The row it adds may carry the old text under the new
  hash (`UpdateStoresOldTextIff`).
- `ChunkText` does not return on some texts as soon as the overlap exceeds half the window
  (`EndsOnEveryTextIff`). `NormalizeContent` is not idempotent on "\r\r\n" (`IdempotentIff`).
- An execution row inserted behind the query of its own approval's grant waits for good
  (`WaitsForGoodIff` gives the exact condition, `GrantBeforeInsertStrands` the run). Rows that are already there are
  left in approval_required for good by `Cancel` (`CancelStrands`), by a query that fails (`FailedQueryStrands`) and
  by expiry (`PendingStrandedIff`); `KeepsWaitingIff` gives the exact condition for every waiting row.
- A task that waits for a cancelled one stays blocked until somebody calls AssignTask on that one
  (`BlockedForGoodIff`).
- README.md line 220 calls idempotency keys unique per organization; migration 7, line 60, makes them unique
  in the whole table, next to the index per organization. The model follows the migration. A key another
  organization holds therefore makes the call fail instead of returning a row (`Service.Execute`).
- `GetTask` does not select the retry and depth columns, so the bound on delegation depth is not kept
  (`DelegationDepthIsUnbounded`) and `Evaluate` never retries (`FailedTaskIsNeverRetried`).
- A worker whose list was read before another claim of the trigger records the old `scheduled_at`, so one value
  can be recorded twice although two occurrences were claimed (`RecordedIsOccurrenceIff`,
  `ScheduledAtAgreesIff`, and `ScheduledAtCanRepeat` for the run).
- A negative retry count lets a job be queued that never runs (`QueuedJobRunsIff`). The product behind the wait
  between retries overflows from attempt 34 on; on eight later attempts the wait is thirty seconds all the same,
  on all others there is none (`BackoffInBoundsIff`).
- An agent run can leave its row in running when no agent meets what the task demands (`RunLeftRunningIff`). A run
  that succeeds does not complete a pending task (`SuccessCompletesTaskIff`, `PendingTaskStaysPending`), and an
  explicit completion in the first decision on an assigned task is rejected (`ExplicitEndIsRejectedIff`).
- The classifier's second branch for updates, with confidence 0.75, is never reached (`LabelsIff`).
- Default idempotency keys of the worker pool collide if ids may hold colons (`DefaultKeysMayCollide`); the callers'
  ids do not (`DefaultKeysDiffer`).
- A hub fans an event without an ID out again when its own echo arrives, and one with an ID after its entry was
  swept away (`EchoIsFannedOutIff`).

## Model

| member | source | states |
|---|---|---|
| ToolSafety.AtMostOncePerKey | backend/internal/tool/executor.go:207-217 | In every interleaving, statement by statement, of any number of Execute calls, approval handlers and expiry sweeps, two provider calls for rows with one idempotency key are one and the same call; likewise the web search that may come before it |
| ToolSafety.EveryCallHasAKey | backend/internal/tool/executor.go:442-531 | Nothing is ever called that has no row in tool_executions, so the previous row speaks about every call |
| ToolSafety.RunOnlyBehindGrant | backend/internal/tool/executor.go:314-353 | A call for a row that was created in the needs-approval branch stands in the history behind the grant of that row's own approval, made by a user of the row's own organization and no later than its expiry; the approval is still approved |
| ToolSafety.PendingBecomesIff | backend/internal/approval/service.go:48-82 | In every state and for every step: a pending approval becomes approved, rejected or cancelled if and only if the step is that decision, in time, by a user of the approval's own organization; it becomes expired if and only if a sweep or such a decision comes too late; its organization and time never change |
| ToolSafety.RefusedRowIsNeverRun | backend/internal/http/handlers/approval.go:134-221 | Once an approval is rejected, cancelled or expired, its rows are not run in any continuation of the run, even if they are inserted later |
| ToolSafety.DecisionsAreFinal | backend/internal/approval/service.go:48-82 | No continuation changes the status of an approval that is no longer pending |
| ToolSafety.StatusTellsTheTruth | backend/internal/tool/executor.go:140-204 | In every reachable state a succeeded row was really called, and a row that waits for approval was not |
| ToolSafety.RunKeepsInv | backend/internal/tool/executor.go:442-531 | Every step, statement by statement, keeps the invariant: unique keys, for every row and kind of call at most one past call or one party still able to make it, handlers bound to the approval they granted |
| ToolSafety.GrantKeepsInv | backend/internal/http/handlers/approval.go:53-57 | A grant gives one handler run, and nobody else, the right to call the rows of the pending approval; none of them has been called |
| ToolSafety.ListKeepsInv | backend/internal/http/handlers/approval.go:59 | The query behind the decision is a step of its own: whatever was inserted in between, it hands the handler run only rows that nobody else may call and that have not been called |
| ToolSafety.ClosingKeepsInv | backend/internal/approval/service.go:143-147 | Closing pending approvals without a grant, one by one or by the sweep, takes away the right to call their rows and gives it to nobody |
| ToolSafety.NewRowKeepsInv | backend/internal/tool/executor.go:442-460 | An insert that passes the unique key gives the right to call to its inserter alone, or to the future grant of its approval |
| ToolService.Service.Execute | backend/internal/tool/executor.go:207-531 | The call is the run of its own statements in the protocol; an existing row is returned exactly when the organization holds the key, and then nothing is written or called; the call fails exactly when the organization does not hold the key and a check or statement fails or another organization holds it; otherwise what was inserted, with which final status, for each way the call can end |
| ToolService.Service.AskFirst | backend/internal/tool/executor.go:314-353 | The needs-approval branch leaves a pending approval and a waiting row and calls nothing; it fails, with the row table left alone, exactly when a statement does or any organization holds the key |
| ToolService.Service.RunNow | backend/internal/tool/executor.go:355-531 | The branch without approval inserts one row, calls it at least once unless the browser refuses access, and leaves the status that the answer deserves; a row in the way of the insert is returned if it is the organization's own and makes the call fail if it is not, with nothing written |
| ToolService.Service.ExecuteApproved | backend/internal/tool/executor.go:57-205 | Treating one approved row is the run of its four statements |
| ToolService.RowRun | backend/internal/tool/executor.go:57-205 | What that run comes to in each case: error before the checks, failed on a refused check, untouched when already succeeded, otherwise called and closed with the answer |
| ToolService.HeldRun | backend/internal/tool/executor.go:442-531 | The same for a row inserted as running |
| ToolService.Service.DecideAndList | backend/internal/http/handlers/approval.go:53-59 | A decision and the query behind it: the run of these two steps, with the rows of the approval on the list, or none if the query fails; the invariant is kept |
| ToolService.Service.Approve | backend/internal/http/handlers/approval.go:53-132 | A decision, a query, and the treatment of all rows the query lists, each once; a refused decision calls nothing and leaves the rows alone; the invariant is kept |
| ToolService.Service.Reject | backend/internal/http/handlers/approval.go:134-213 | A decision and a query after which every listed row is failed; the run of its own statements; the invariant is kept |
| ToolService.Service.Cancel | backend/internal/http/handlers/approval.go:215-221 | Decides only: the rows keep their status, so a row of a cancelled approval stays in approval_required |
| ToolService.Service.Decide | backend/internal/approval/service.go:48-82 | Exactly when the approval is not found for the organization, already decided, too late or decided, and what becomes of it; a late decision expires it |
| ToolService.Service.ExpirePending | backend/internal/approval/service.go:143-147 | Equals the sweep step: expires exactly the pending approvals whose time is over, and counts them |
| ToolService.Service.Find | backend/internal/tool/executor.go:214-217 | Finds a row of the organization with the key if and only if there is one |
| ToolService.Service.CreateToolExecution | backend/migrations/000007_phase5_tools_approvals.sql:60 | An insert succeeds exactly when the statement does and no row of any organization holds the key |
| ToolStranding.StrandedForever | backend/internal/http/handlers/approval.go:59-70 | A row whose approval can no longer be decided, that nobody holds and that no query will list keeps its status and is called no more, whatever happens later |
| ToolStranding.KeepsWaitingIff | backend/internal/http/handlers/approval.go:53-70 | For every row in approval_required of every reachable state: it keeps waiting, uncalled, whatever happens later, if and only if its approval can no longer be decided, no handler run that decided it has its query ahead, and no handler run has the row on its list; otherwise some continuation treats it |
| ToolStranding.CancelStrands | backend/internal/http/handlers/approval.go:215-221 | Cancelling a pending approval leaves every row of it waiting for good |
| ToolStranding.FailedQueryStrands | backend/internal/http/handlers/approval.go:59 | So does a query that fails, for grants and rejections alike: no other handler run will ever list the rows |
| ToolStranding.PendingStrandedIff | backend/internal/approval/service.go:55-60 | A waiting row whose approval is pending is left behind exactly when the approval has run out of time |
| ToolStranding.WaitsForGoodIff | backend/internal/tool/executor.go:322-348 | In every reachable state in which a gated call is about to insert its row: the row waits for ever, whatever happens later, if and only if its approval can no longer be decided (it has been, or has expired) and no handler run that decided it has its query for the rows ahead |
| ToolStranding.InsertStrandsIff | backend/internal/tool/executor.go:322-348 | Under the same condition, and only then, nobody holds the row after the insert and nobody will find it |
| ToolStranding.EarlierRowIsListed | backend/internal/http/handlers/approval.go:59 | A row that is there before the query, however long before, is on the list of the handler run that makes it |
| ToolStranding.GrantedButWaiting | backend/internal/http/handlers/approval.go:59 | A row inserted behind the query of its own grant stays in approval_required for ever, uncalled, although its approval is approved |
| ToolStranding.GrantBeforeInsertStrands | backend/internal/tool/executor.go:322-348 | Such a state is reached, for every organization, key and tool, by granting between the two inserts of one call |
| TaskStore.Repository.AddTaskDependency | backend/internal/repository/team.go:159-180 | The search ends on every finite table although its queue holds duplicates, and reports a cycle exactly when dependsOn is or reaches the task; otherwise the row is there, or a missing end is reported |
| TaskGraph.ClosedSetTraps | backend/internal/repository/team.go:161-177 | The visited tasks, being closed under the rows, hold everything the search could reach |
| TaskGraph.InsertKeepsAcyclicIff | backend/internal/repository/team.go:165-178 | On an acyclic table the check that is made is exactly the condition under which the insert keeps it acyclic |
| TaskGraph.AcyclicIffNoCycle | backend/internal/repository/team.go:159-180 | The absence of a row that closes a walk is the absence of any cyclic walk |
| TaskGraph.WalkAfterInsert | backend/internal/repository/team.go:178 | A walk in the extended table avoids the new row or splits at it |
| TaskGraph.SinkExists | backend/internal/repository/team.go:195-207 | In an acyclic table every nonempty set of tasks has a member that waits for none of the others |
| TaskRuns.GraphStaysAcyclic | backend/internal/repository/team.go:159-180 | Over every run of creations, status updates, assignments, dependencies, delegations and evaluations the table has no cycle, and its rows name existing tasks |
| TaskRuns.SomeTaskIsUnblocked | backend/internal/repository/team.go:195-207 | No dependency deadlock: in every reachable state in which a task is not completed, some task is neither completed nor blocked |
| TaskRuns.BlockedForGoodIff | backend/internal/repository/team.go:195-207 | In every reachable state: a task stays blocked over every continuation without AssignTask if and only if one of its dependencies is cancelled |
| TaskRuns.CompletableIff | backend/internal/repository/task.go:176-200 | In every reachable state: some continuation without AssignTask completes a task if and only if it is not cancelled |
| TaskRuns.DelegateAlwaysLinks | backend/internal/team/orchestrator.go:110-115 | The edge to the task that Delegate has just created is never rejected, so the parent is blocked until it is completed |
| TaskStore.Repository.IsTaskBlocked | backend/internal/repository/team.go:195-207 | True exactly when some dependency is not completed |
| TaskStore.Repository.DependencyRows | backend/internal/repository/team.go:182-193 | Exactly the tasks this one depends on |
| TaskStore.Repository.CreateTask | backend/internal/repository/task.go:26-88 | The new tables and outcome; assigned when an assignee is given, pending otherwise |
| TaskStore.Repository.UpdateTaskStatus | backend/internal/repository/task.go:202-237 | The new tables and which of the four refusals applies, legacy targets being refused by the table |
| TaskStore.TransitionsFromBothSides | backend/internal/repository/task.go:176-200 | The transition table read by targets: from which statuses each may be entered |
| TaskStore.Repository.AssignTask | backend/internal/repository/task.go:239-260 | Assigns from every status; for another organization only the event is written; refused exactly for a missing task |
| TaskStore.Repository.Delegate | backend/internal/team/orchestrator.go:83-140 | The new tables and outcome of a delegation, on the row as GetTask reads it: refused exactly for a foreign or missing parent, an agent outside the team, or a task that exists |
| TaskStore.Repository.Evaluate | backend/internal/team/orchestrator.go:143-177 | The new tables and verdict, including the nil task behind a failed read |
| TaskRuns.CompletedWasStarted | backend/internal/repository/task.go:176-260 | A completed task was running at an earlier moment of the run, with started as its last event then, and was not reassigned in between |
| TaskRuns.LifecycleInvariant | backend/internal/repository/task.go:176-200 | No reachable status is a legacy or unknown one, and statuses behind a start imply the start |
| TaskRuns.LogGrows | backend/internal/repository/task.go:262-280 | Events are only appended, over any continuation |
| TaskRuns.LogTells | backend/internal/repository/task.go:200-236 | The log tells the truth: it holds a started, completed or failed event if and only if the task has been running, completed or failed at some moment of the run |
| TaskRuns.OnlyOwnerChangesStatus | backend/internal/repository/task.go:202-260 | Only an update, an assignment or an evaluation by the task's own organization changes its status |
| TaskRuns.OnlyAssignReopens | backend/internal/repository/task.go:239-260 | The only call that takes a task out of completed or cancelled is an assignment by its own organization |
| TaskRuns.FailedTaskIsNeverRetried | backend/internal/team/orchestrator.go:150-175 | Evaluate escalates every failed unblocked task and changes nothing: its retry branch is dead, since GetTask does not select the columns it reads |
| TaskRuns.DelegationDepthIsUnbounded | backend/internal/team/orchestrator.go:87-96 | Delegation chains of every length are accepted, for the same reason |
| FanOut.AtMostOncePerWindow | backend/internal/ws/hub.go:122-181 | Over every interleaving of any number of hubs, two fan-outs of one event with an ID at one hub are more than five minutes apart |
| FanOut.OwnEchoIsDropped | backend/internal/ws/redis.go:52-79 | A hub drops its own message when Redis returns it within five minutes, because the ID was noted before the publication |
| FanOut.PublishedExactlyOnce | backend/internal/ws/redis.go:43-50 | Conservation: publications match the fan-outs of locally broadcast events with a room one for one; receiving publishes nothing |
| FanOut.RoomsAreKept | backend/internal/ws/redis.go:52-79 | An event is only fanned out to a room it was broadcast to, at whatever hub |
| FanOut.RunsKeepInvariant | backend/internal/ws/hub.go:64-83 | Every marked fan-out is remembered for five minutes in spite of eviction, and every message on the way names the fan-out that caused it |
| FanOut.FannedOutIff | backend/internal/ws/hub.go:64-83 | Over every run, a hub fans out what it takes from its channel or from Redis if and only if every marked fan-out of the ID there was swept away by a later one, more than five minutes younger, that found the map too large; the empty ID is never known |
| FanOut.RunsKeepHistory | backend/internal/ws/hub.go:64-83 | Over every run the seen map of each hub holds exactly the marked fan-outs that were not swept away, with their times |
| FanOut.EveryHubIsReached | backend/internal/ws/redis.go:57-75 | If Redis loses nothing, then over every run and for every published message and every hub: the message waits in the hub's inbox, or the hub has a marked fan-out of its ID, in its room if that is the only room the ID was broadcast to |
| FanOut.QuietMeansDelivered | backend/internal/ws/redis.go:43-75 | So once nothing is on its way, every event that any hub was given for a room has been fanned out at every hub |
| FanOut.ChannelsKeepOrder | backend/internal/ws/hub.go:122-126 | First in, first out: a hub handles the events it is given in order, each once; if Redis loses nothing it takes all published messages in the order of their publication, each once |
| FanOut.EchoIsFannedOutIff | backend/internal/ws/hub.go:122-127 | Over every run, for the echo of a hub's own event: the same condition; without a marked fan-out of the ID so far, as for the first echo of an event broadcast without an ID, it is fanned out again; that of an event with an ID only after its entry was swept away |
| FanOut.EchoOfOneEvent | backend/internal/ws/hub.go:122-127 | One hub and one event: two fan-outs without an ID, one with |
| FanOut.TakeBroadcast | backend/internal/ws/hub.go:122-152 | What Run does with the next event of its channel is the step Loop of the many-hub system: same map, same delivery, same message |
| FanOut.TakeMessage | backend/internal/ws/redis.go:60-75 | What the subscriber does with the next message, the room being the channel, is the step Receive; it publishes nothing |
| FanOut.Hub.IsDuplicate | backend/internal/ws/hub.go:64-83 | The answer and the whole map afterwards; above 1000 entries exactly those older than five minutes are deleted |
| FanOut.Hub.HandleBroadcast | backend/internal/ws/hub.go:122-152 | What is noted, published and delivered, and to whom; a duplicate leaves everything alone |
| FanOut.Hub.BroadcastLocal | backend/internal/ws/hub.go:161-181 | The same without any publication, and with the ID made up before the duplicate check |
| FanOut.Hub.Register | backend/internal/ws/hub.go:97-107 | Adds the client to its organization's room and to no other |
| FanOut.Hub.Unregister | backend/internal/ws/hub.go:109-120 | Takes the client out of every room and drops emptied rooms |
| FanOut.Hub.JoinChannel | backend/internal/ws/hub.go:214-223 | Changes one room by one member |
| FanOut.Hub.LeaveChannel | backend/internal/ws/hub.go:225-237 | Takes one member out of one room |
| Scheduler.NextMondayIsLeast | backend/internal/scheduler/service.go:71-85 | The computed instant is a Monday 09:00, later than now by at most seven days, and no Monday 09:00 lies between (fixed zone offset) |
| Scheduler.AtMostOneRow | backend/internal/scheduler/service.go:203-248 | However many workers there are and however stale their lists, a trigger without a recurrence gets at most one row |
| Scheduler.OccurrencesIncrease | backend/internal/scheduler/service.go:203-248 | The occurrence that a claim takes lies strictly after the moment of every earlier claim of that trigger, so none is claimed twice |
| Scheduler.ClaimSetsNext | backend/internal/scheduler/service.go:208-227 | A claim takes exactly the occurrence that stood in the row, and for a recurring trigger leaves the next one, strictly after now |
| Scheduler.InvariantHolds | backend/internal/scheduler/service.go:125-285 | Over every run: due lists only hold values next_run_at has had, and claimed triggers are over or come up later |
| Scheduler.RecordedIsOccurrenceIff | backend/internal/scheduler/service.go:184-262 | For every run and row: the recorded scheduled_at is the occurrence claimed if and only if the trigger was not claimed between the reading of the worker's list and the claim; otherwise it is an earlier one |
| Scheduler.ScheduledAtAgreesIff | backend/internal/scheduler/service.go:184-262 | Two rows of one trigger record the same value if and only if it was not claimed between the readings of their two lists |
| Scheduler.RepeatComesFromStaleList | backend/internal/scheduler/service.go:184-262 | So two rows agree only when the later claim came from a list read before the earlier claim |
| Scheduler.HistoryHolds | backend/internal/scheduler/service.go:184-262 | Over every run the next_run_at of each trigger is the one its last claim set, claims take what is in force, and lists hold what was in force at their reading |
| Scheduler.DueListIsComplete | backend/internal/scheduler/service.go:129-182 | The list holds exactly the enabled triggers among those visited whose next_run_at has come, with that value, and each once if it is visited once |
| Scheduler.ScheduledAtCanRepeat | backend/internal/scheduler/service.go:184-262 | A run with two workers in which one scheduled_at is recorded twice for two occurrences |
| Scheduler.Service.ReadDue | backend/internal/scheduler/service.go:129-183 | Exactly the enabled triggers among those visited whose time has come, with the next_run_at they have, each once |
| Scheduler.Service.ClaimOne | backend/internal/scheduler/service.go:219-249 | The claim is made exactly when the row is still due and the insert succeeds; the row it writes, and what the trigger becomes: over, never again, in a minute, or up at the least Monday 09:00 after now |
| Scheduler.Service.ProcessDueTriggers | backend/internal/scheduler/service.go:184-285 | If no insert fails and the clock does not go back, the result is the number of triggers that were due, each of them has a new row for its occurrence, and no other trigger is touched; in general the result counts the rows added |
| WorkerPool.EvictionIsInvisible | backend/internal/worker/worker.go:52-66 | Every accept or duplicate decision is the one an unbounded history would make |
| WorkerPool.DeduplicatedIff | backend/internal/worker/worker.go:52-66 | A call is turned away exactly when an earlier call with its key was accepted and its 24 hours are not over |
| WorkerPool.HistoryIsLastAccepted | backend/internal/worker/worker.go:53-59 | The history holds, for every key, the end of the window that its last accepted call opened |
| WorkerPool.DefaultKeysDiffer | backend/internal/worker/worker.go:48-50 | Jobs without a key of their own get the same key if and only if id and type agree, as long as no id holds a colon |
| WorkerPool.DefaultKeysMayCollide | backend/internal/worker/worker.go:48-50 | With colons two different jobs can get the same key |
| WorkerPool.Pool.Enqueue | backend/internal/worker/worker.go:48-74 | Outcome, map and queue after the call, with the three defaults filled in; a key stays taken even when the queue was full; above 1000 keys exactly the entries that are over are deleted |
| WorkerPool.Pool.Sweep | backend/internal/worker/worker.go:61-65 | The deletion loop leaves exactly the entries that are not over |
| WorkerPool.RunJob | backend/internal/worker/worker.go:94-131 | A dequeued job is run at least once unless its retry count is negative, at most Retries + 1 times, stops at the first success or ended context, and waits once between two attempts |
| WorkerPool.QueuedJobRunsIff | backend/internal/worker/worker.go:48-131 | From Enqueue to the last attempt: a job is run at least once if and only if its retry count is not negative, at most that count plus one times, four times for zero, and stops at the first success or ended context |
| WorkerPool.BackoffInBounds | backend/internal/worker/worker.go:119-120 | Up to attempt 33 the wait is the doubling number of seconds, at least one and at most thirty |
| WorkerPool.BackoffInBoundsIff | backend/internal/worker/worker.go:119-120 | For every attempt: the wait lies between one and thirty seconds if and only if the attempt is at most 33 or one of 37, 41, 42, 45, 47, 50, 51 and 53; on all others the product has wrapped to zero or less and there is no wait |
| WorkerPool.AllWaitsInBoundsIff | backend/internal/worker/worker.go:119-120 | All waits of a job that keeps failing are in bounds if and only if it has at most 34 retries |
| WorkerPool.LateRetriesDoNotWait | backend/internal/worker/worker.go:119-120 | From attempt 55 on the wait is zero |
| AgentLoop.RunStaysWithinBudget | backend/internal/runtime/runtime.go:116-312 | For every model, tool and cancellation behaviour one run makes at most MaxIterations * (1 + MaxDecisionRetries) model calls and at most MaxToolCalls minus the preloaded results tool executions, so the failure for too many tool calls is unreachable |
| AgentLoop.CallBoundIsTight | backend/internal/runtime/runtime.go:116-312 | The bound on model calls is attained, whatever the status at the start |
| AgentLoop.IterateBounds | backend/internal/runtime/runtime.go:197-303 | One iteration adds at most three calls and keeps the tool count honest and within the limit |
| AgentLoop.ActBounds | backend/internal/runtime/execution.go:434-488 | The actions of one decision run no more tools than the decision has call_tool actions |
| AgentLoop.RunLeftRunningIff | backend/internal/runtime/execution.go:258-262 | Every model, tool and cancellation behaviour closes or parks the run row if and only if the task demands no role or capability, or some agent meets the demand for every action of every iteration; otherwise some model leaves the row in running |
| AgentLoop.AssignedTaskCompletesIff | backend/internal/runtime/runtime.go:253-278 | Without explicit status changes an assigned task is completed by the run exactly when the run succeeds |
| AgentLoop.PendingTaskStaysPending | backend/internal/runtime/runtime.go:97-99 | A pending task stays pending whatever the run does, even when the run succeeds, because pending may not become running |
| AgentLoop.AssignedTaskEnds | backend/internal/runtime/runtime.go:116-312 | How a run leaves the row of an assigned task, without explicit status changes: completed, failed, waiting or approval_required, or running, by how the run ends |
| AgentLoop.SuccessCompletesTaskIff | backend/internal/runtime/runtime.go:97-253 | Without explicit status changes every run that succeeds leaves its task completed if and only if the task was loaded in a status from which running or completed can be reached; from any other status, such as pending, failed or cancelled, some run succeeds without completing it |
| AgentLoop.ExplicitEndIsRejectedIff | backend/internal/runtime/execution.go:124-134 | A first decision with complete_task or fail_task that meets no other refusal is rejected if and only if the task was not loaded as running, waiting or approval_required |
| AgentLoop.ExplicitEndWorksIff | backend/internal/runtime/execution.go:554-590 | For a first decision with that one action: under the same condition the run ends as the action says, task and run alike; otherwise it fails as rejected |
| AgentLoop.ExplicitCompletionIsRejected | backend/internal/runtime/execution.go:124-134 | So for an assigned task, whose copy in memory still says assigned, such a decision always fails run and task |
| AgentLoop.ExecuteTask | backend/internal/runtime/runtime.go:116-312 | The loop computes the run defined iteration by iteration |
| AgentLoop.RunIteration | backend/internal/runtime/runtime.go:117-306 | One pass through the loop body, on each of its exits |
| AgentLoop.RetryDecision | backend/internal/runtime/retry.go:9-27 | Asks again until an answer parses, at most twice, and counts the calls |
| AgentLoop.ValidateDecision | backend/internal/runtime/execution.go:57-144 | Accepts exactly the decisions within the call limit, with allowed tools and transitions, and with something to say when they wait |
| AgentLoop.ExecuteDecisionActions | backend/internal/runtime/execution.go:173-604 | The effect of the list of actions on statuses and tool runs, with its early ends |
| AgentLoop.CountToolCalls | backend/internal/runtime/execution.go:632-638 | The number of call_tool actions |
| AgentRounds.ParksIff | backend/internal/runtime/runtime.go:216-292 | Exactly which acceptable decisions park a run: those whose actions stop at a tool that needs approval, or at a subtask without an agent when the status is approval_required or waiting by then, or that are through and say needs_human, waiting or approval_required; what a list says is what its last rewrite wrote |
| AgentRounds.RequestApprovalParks | backend/internal/runtime/execution.go:505 | A decision with request_approval and no explicit end parks the run, whatever its status, the tools and the environment, if an agent is found for every subtask |
| AgentRounds.ParkedRow | backend/internal/runtime/runtime.go:216-292 | The task row of a parked run, from what its actions made of it: approval_required if they stopped, waiting if they said so, provided it was still running |
| AgentRounds.OtherwiseGoesOn | backend/internal/runtime/runtime.go:216-306 | Every other decision: done or failed as it says, or on to the next iteration with exactly its tool calls made and counted and with the copies of the status that its update and end actions leave where both tables allow them, or the error of a subtask without an agent |
| AgentRounds.RoundWithoutActions | backend/internal/runtime/runtime.go:117-215 | How an iteration ends without acting: cancelled, without an answer, without one that parses among three, or with an unacceptable decision; what becomes of run and task row, and that no tool is run |
| AgentRounds.AcceptableIsValid | backend/internal/runtime/execution.go:57-144 | The checks in terms of the number of call_tool positions, the loaded status and the reply |
| AgentRounds.ActSays | backend/internal/runtime/execution.go:173-604 | The result of a list of actions from its first stop and from what it says, and the number of tools run up to there |
| Lcs.LongestCommonSubsequence | backend/internal/memory/service.go:1010-1032 | The table filled in place ends with the value of the recurrence, in its last cell and in all others |
| Lcs.LengthIsMaximum | backend/internal/memory/service.go:1010-1032 | That value is the exact maximum of the lengths of all common subsequences |
| Lcs.NoneIsLonger | backend/internal/memory/service.go:1010-1032 | No pair of increasing selections that agree is longer, for all prefixes |
| Lcs.OneIsThatLong | backend/internal/memory/service.go:1010-1032 | Some common subsequence has that length, for all prefixes |
| Lcs.LengthIsSymmetric | backend/internal/memory/service.go:1010-1032 | The length is symmetric and at most that of either text |
| Similarity.SimInRange | backend/internal/memory/service.go:980-1008 | textSimilarity never divides by zero, lies in [0, 1], is symmetric, and is 1 on equal normal forms |
| Similarity.JaccardInRange | backend/internal/memory/service.go:963-978 | The Jaccard index lies in [0, 1] and is symmetric |
| Similarity.DifferentTextsHaveWords | backend/internal/memory/service.go:998-1007 | Two texts that get past the equality check have at least one word together |
| Similarity.ClassifyIsSymmetric | backend/internal/memory/service.go:890-938 | Swapping the two texts changes neither label nor confidence |
| Similarity.KeptApartIff | backend/internal/memory/service.go:890-938 | Exactly when two texts are labelled unrelated or ambiguous, across all branches of the classifier |
| Similarity.SimilarIsNeverKeptApart | backend/internal/memory/service.go:890-938 | Similarity above 0.75 or Jaccard above 0.4 never gives unrelated or ambiguous |
| SimilarityLaws.LabelsIff | backend/internal/memory/service.go:890-938 | Each label by a condition of its own, and the confidence it comes with: a changed value of one subject is an update in fairly similar texts and never merged; the second update branch is dead |
| SimilarityLaws.ContradictoryIff | backend/internal/memory/service.go:1085-1126 | Exactly when two texts contradict each other: one subject, and different formats, a negation in one of them, or opposite words |
| SimilarityLaws.ValueChangeIff | backend/internal/memory/service.go:1054-1083 | Exactly when a value changes: different formats, or different sequences of numbers in texts on one subject |
| SimilarityLaws.SharesSubjectIff | backend/internal/memory/service.go:1034-1052 | Exactly when two texts are about one subject: a common subject word, or more than three tenths of the tokens |
| SimilarityLaws.SimCounts | backend/internal/memory/service.go:980-1008 | The similarity from the common tokens and from any longest common subsequence of the words |
| SimilarityLaws.JaccardCounts | backend/internal/memory/service.go:963-978 | The number of common elements over the number of all |
| SimilarityLaws.FieldsSplit | backend/internal/memory/service.go:980-1008 | The words of two texts with a space between them are those of the one and then those of the other |
| SimilarityLaws.WordIsField | backend/internal/memory/service.go:980-1008 | A run of characters that are no spaces is one word |
| SimilarityLaws.TokensSplit | backend/internal/memory/service.go:940-961 | Likewise for tokens, at any character that belongs to none |
| SimilarityLaws.RunIsToken | backend/internal/memory/service.go:940-961 | A run of letters and digits is one token, from two characters on |
| SimilarityLaws.NumbersSplit | backend/internal/memory/service.go:1069-1080 | Likewise for numbers |
| SimilarityLaws.NumberIsFound | backend/internal/memory/service.go:1069-1080 | Digits, with a fraction and a percent sign if there are any, are one number |
| SimilarityLaws.NormIgnoresCase | backend/internal/memory/service.go:763-770 | Texts that differ in case only have one normal form |
| SimilarityLaws.NormIgnoresRuns | backend/internal/memory/service.go:763-770 | A run of blanks inside a text counts as one space |
| SimilarityLaws.NormalTextStays | backend/internal/memory/service.go:763-770 | A text with nothing to normalise is its own normal form, with or without a final period |
| SimilarityLaws.ScoreWeighs | backend/internal/memory/service.go:861-888 | The scores of two texts compare like words plus different words, less four for fewer than four words |
| TrimInvariance.ClassifyTrim | backend/internal/memory/service.go:890-938 | Trimming the stored text, as a merge does, changes no classification |
| TrimInvariance.NumbersTrim | backend/internal/memory/service.go:1069-1080 | Trimming changes no number that the value comparison finds |
| MemoryTheorems.RepeatAddsRowIff | backend/internal/memory/service.go:159-420 | For every table and input the same call made again adds a row exactly in two situations, LosesItsMatch and TurnsIntoConflict, both readable off the table before the first call; never after a call that added one |
| MemoryTheorems.RepeatIsStable | backend/internal/memory/service.go:159-420 | So it adds none when stored hashes belong to their texts and no row of another conversation or task blocks the insert |
| MemoryTheorems.AddsRowIff | backend/internal/memory/service.go:159-420 | Exactly when one call adds a row; it is one row, and the input's hash finds it |
| MemoryTheorems.NearestDecides | backend/internal/memory/service.go:193-248 | Without a row of the same hash, the row a call changes is comparable, not passed over, and every comparable row strictly nearer is filtered out or kept apart; a call that creates a memory has found all comparable rows passed over or behind ten others |
| MemoryTheorems.KnownHashOnlyMerges | backend/internal/memory/service.go:176-190 | If a living row of the input's key has its hash, the call merges into such a row or is refused, and adds none |
| MemoryTheorems.ResultTells | backend/internal/memory/service.go:159-420 | What each result says about the table on every path: which row changed, in which columns, and what the added row holds; a conflict is stored only for a contradiction that the source does not overrule |
| MemoryTheorems.MergeStrengthens | backend/internal/memory/service.go:287-317 | A merge closes half or three tenths of the confidence's gap to one, up to 0.99, takes the larger importance and one of the two texts, with its hash |
| MemoryExample.RepeatAddsRow | backend/internal/memory/service.go:250-271 | Tables on which the repeated call adds a row: the first call re-hashes its only match |
| MemoryExample.RepeatStoresConflict | backend/internal/memory/service.go:319-368 | Tables on which it stores a conflict: the blocked update lifted the old row's confidence |
| MemoryTheorems.ConsolidateKeepsScopes | backend/internal/memory/service.go:186-190 | On every path, rows added or changed carry exactly the input's organization, scope, agent, project, conversation and task, and rows changed were living; all others are untouched |
| MemoryTheorems.ConsolidateKeepsIndex | backend/migrations/000014_memory_consolidation.sql:52 | Every call keeps the unique index of the table |
| MemoryTheorems.LiveRowsStayLive | backend/internal/memory/service.go:325 | No call ever retires a live row: the UUID written to superseded_by names no row, the foreign key refuses the statement, and the error is dropped |
| MemoryTheorems.UpdateStoresOldTextIff | backend/internal/memory/service.go:328 | The row an update adds has the hash of the new text but carries the old one if and only if the two differ and the new one is empty or scores no higher than a nonempty old one |
| Memories.Service.Consolidate | backend/internal/memory/service.go:159-248 | Result and table of the whole call, on every branch without a language model |
| Memories.Service.FindCandidates | backend/internal/memory/service.go:517-631 | The loop returns the candidates in their order |
| Memories.NearestAreNearest | backend/internal/memory/service.go:526-531 | The query returns distinct comparable rows in the order of their distance, ten or all there are; none that is left out is nearer |
| Memories.CandidatesAreNearest | backend/internal/memory/service.go:596-631 | The candidates are exactly those of the nearest rows with a similarity of at least 0.25 or a common subject, still in order; the filter changes no decision |
| Memories.NearerRowsArePassedOver | backend/internal/memory/service.go:200-248 | Every comparable row strictly nearer than the decisive one is filtered out or kept apart |
| Memories.Service.HandleMerge | backend/internal/memory/service.go:287-317 | Row and result of a merge, or the refusal by the unique index |
| Memories.Service.HandleUpdate | backend/internal/memory/service.go:319-338 | Row and result of an update, with its fallback to a merge |
| Memories.Service.HandleContradiction | backend/internal/memory/service.go:340-369 | A strong source updates; otherwise both rows are kept as a conflict |
| Memories.Service.CreateNewMemory | backend/internal/memory/service.go:371-420 | A new row, or a merge reported without any change |
| ContextMemories.DedupKeepsFirsts | backend/internal/runtime/context.go:55-67 | What is kept is the subsequence of the first usable memory for every normal form: nothing else, and none of them lost |
| ContextMemories.DedupKeepsForms | backend/internal/runtime/context.go:55-67 | The forms kept are exactly those of usable memories, each once |
| ContextMemories.SecondDedupIsIdentity | backend/internal/runtime/context.go:53-67 | After the retrieval's own removal of duplicates the prompt's removal changes nothing |
| ContextMemories.DeduplicateForContext | backend/internal/memory/service.go:1280-1296 | The loop keeps the first usable memory for every normal form |
| ContextMemories.FilterForPrompt | backend/internal/runtime/context.go:55-67 | The same by the lower-cased trimmed text |
| ContextMemories.ExchangeSort | backend/internal/runtime/context.go:70-76 | In place, a permutation ordered by confidence and then importance |
| ContextMemories.Emit | backend/internal/runtime/context.go:78-104 | Writes lines up to the place where the budget stops |
| ContextMemories.StopIsUnique | backend/internal/runtime/context.go:78-104 | There is exactly one such place, at most 3 lines and 1000 bytes from the start |
| ContextMemories.LineFollows | backend/internal/runtime/context.go:78-104 | Line i + 1 is that of memory i, right behind the lines before it |
| ContextMemories.SectionFitsBudget | backend/internal/runtime/context.go:78-104 | At most three lines and 1000 bytes, and no other reason to stop |
| ContextMemories.MemorySection | backend/internal/runtime/context.go:49-108 | The text of the section, from a ranked permutation of the filtered memories |
| ContextMemories.SectionListsBest | backend/internal/runtime/context.go:49-108 | What the section chooses from, in this order: usable memories, no two with the same lower-cased trimmed text, one for every such text of a usable memory, by confidence and then importance; nothing that is left out ranks before anything that is listed |
| Chunking.EndsOnEveryTextIff | backend/internal/knowledge/ingest.go:22-54 | For every window size and overlap: ChunkText returns on all texts if and only if twice the overlap is at most the window |
| Chunking.WindowsShape | backend/internal/knowledge/ingest.go:32-52 | Each window is at most 4 * chunkSizeTokens + 1 characters and ends where the search says; starts and ends strictly increase; neighbours share exactly the overlap; the last ends with the text |
| Chunking.WindowsRebuildText | backend/internal/knowledge/ingest.go:32-52 | The first window and the later ones without their first 4 * overlapTokens characters are the text again |
| Chunking.WindowEndIsLastBreak | backend/internal/knowledge/ingest.go:37-46 | A window ends behind the last line or sentence end in its second half, one character behind it included, or at full length |
| Chunking.StuckForever | backend/internal/knowledge/ingest.go:22-54 | The text on which a larger overlap never gets past its first window |
| Chunking.ChunkText | backend/internal/knowledge/ingest.go:22-54 | The trimmed windows, in order, or the whole normal form when it is short; defaults for sizes out of range |
| Chunking.LookBack | backend/internal/knowledge/ingest.go:39-45 | The cut the inner loop finds |
| Normalize.NormalizeContent | backend/internal/knowledge/ingest.go:56-63 | The loop ends, and its result is the text with every run of newlines capped at two |
| Normalize.CapCapsEveryRun | backend/internal/knowledge/ingest.go:56-63 | Every maximal run of k newlines becomes min(k, 2), and all other characters stay, in order |
| Normalize.NormalizedCapsRuns | backend/internal/knowledge/ingest.go:56-63 | The whole function in these terms, for every text |
| Normalize.PassKeepsCap | backend/internal/knowledge/ingest.go:59-61 | One pass of the replacement does not change what is left in the end |
| Normalize.IdempotentIff | backend/internal/knowledge/ingest.go:56-63 | A second application changes nothing if and only if the trimmed text has no carriage return before a carriage return and newline |
| Normalize.IdempotentWithoutCarriageReturns | backend/internal/knowledge/ingest.go:56-63 | In particular on texts without carriage returns |

## Left out

- I/O and libraries: SQL text, HTTP, WebSocket frames, the Redis client, models, embedders, the browser, parsing of PDF and DOCX, authentication, encryption, metrics, the frontend.
- Audit logs, memory_versions, events written for debugging and the hub messages that announce a change: they are written and not read by the modelled code.
- Interleavings inside one `Decide` and inside one `AddTaskDependency`: each is one step, as the code takes no lock there and would lose the properties without one.
- ToolService.Service.Execute: runs undisturbed from its first statement to its last; the interleavings of several calls are those of ToolProtocol, whose steps it is shown to consist of.
- ToolService.Service.Approve: the task and run rows it sets back to running and the resume jobs it enqueues are left out (the job type resume_run has no handler).
- ToolService.Service.Reject: likewise.
- The lookup of tool, schema, permissions, project assignment and rate limits in `Execute` is one parameter; so are the repeated checks in `ExecuteApproved`.
- `ExecuteAfterApproval` and `ResumeRun`: nothing calls the former, and no handler runs the latter.
- A statement that fails although the constraints allow it is modelled where the code reacts to it (inserts of approvals and executions, claims, merges) and not where its error is dropped.
- Text is ASCII and characters are bytes; Unicode folding and the regular expressions outside the modelled patterns are not part of the model.
- Float64 values are reals: rounding in similarities, confidences and importances is not modelled.
- Memories.Service.Consolidate: no language model, an embedder that answers, statements that fail only by the table's constraints; isLowValue and isSecretContent are one predicate of the input.
- Memories.Service.FindCandidates: candidates at equal distance come in table order.
- `BackgroundConsolidation`, `Retrieve`'s ranking, archiving, restoring and expiry of memories.
- Scheduler.NextMondayIsLeast: a zone with a fixed offset, without daylight saving time.
- Scheduler.Service.ProcessDueTriggers: the row inserted into tasks and the job it enqueues are left out.
- WorkerPool.Pool.Sweep: one reading of the clock for the whole loop, as in FanOut.Hub.IsDuplicate.
- WorkerPool.RunJob: the timeout of an attempt and a context that ends during a wait only show in what the handler returns.
- TaskRuns.LogTells: speaks of the events that the modelled calls write; the runtime also writes a completed event of its own for every run that succeeds.
- `DurableWorker`: it reopens a failed row while it goes on retrying it, so claims are not exclusive.
- FanOut.Hub.HandleBroadcast: a client whose send buffer is full loses the event; the model records to whom it was offered.
- AgentLoop.ValidateDecision: the checks on tool names, risk, autonomy and tool input are one answer per iteration, for every value of which the theorems hold; the depth it looks at is at most one and refuses nothing.
- AgentLoop.ExecuteDecisionActions: messages, delegated tasks, created subtasks and stored memories change neither the statuses nor the counters of the run and are actions without effect here. That holds for delegate_task on the run's own task too: AssignTask would set it to assigned, but the agent's id is passed as assignedBy, which the foreign keys on users refuse (migration 1, lines 223 and 238), so the transaction is rolled back.
- AgentLoop.ExecuteTask: choice of provider and model, the prompt, messages, memory updates, delegation inside actions and the aggregation of parents; which results are preloaded is a number of at most five.
- `normalizeDecision` and the schema check of decisions: a reply either parses to a valid decision or it does not.
- TaskStore.Repository.Delegate: the foreign keys on users and agents, the job and the activity rows.
- `sharesSubject` and the other keyword lists are modelled as they stand; secret detection, hint scoring and builder previews are not.
