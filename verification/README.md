# Akili: a verified model

Akili runs LLM agents under operational control: a workflow engine expands a goal into a graph of
tasks and executes them with agents, recovering from failures; gateways carry messages; and a set
of small state machines decides what an agent may do (approvals, budgets, rate limits, agent
routing). This project models the parts of it whose correctness is not visible in any single
function, and proves what they guarantee over every input, every run and every interleaving.

`dafny verify dfyconfig.toml` checks everything.

## How the model is organised

| files | what they hold |
|---|---|
| `Types`, `Dag`, `Engine`, `EngineInvariant`, `EngineSafety`, `EngineContent`, `EngineTermination`, `EngineWitness`, `Descent`, `Scheduler` | the workflow engine |
| `Strings`, `TelegramSplit`, `TelegramHtml`, `HtmlScan`, `HtmlContent` | the Telegram splitter and the Markdown converter |
| `JsonSpan` | finding a JSON array in an agent's answer |
| `Conversation`, `ConversationContent` | the bookkeeping of a conversation's history |
| `RateLimit`, `Budget`, `AutoApproval`, `Approvals` | the controls on what an agent may do |
| `AgentRegistry`, `WsQueue`, `SyncWaiter` | remote agents, the pending queue, synchronous callers |
| `Soul`, `SoulRuns` | the event log of the evolving identity and its cache |

The engine appears twice. `Engine` is a machine whose steps are the points at which goroutines can
interleave (dispatch a batch, start a task, finish it with any result, receive a result, close the
batch, recover, conclude, cancel, wait); agent answers, plans, decisions, cancellation, the order
of equal priorities and the order of goroutines are all arbitrary. `Scheduler` is the imperative
code: a store of records and the loop over it. Its ghost history records a run of the machine, so
the theorems about all runs (`EngineInvariant`, `EngineSafety`, `EngineTermination`) hold of every
execution of the code, and the loop's own `decreases` is the machine's measure. The measure is a
vector whose length is the depth limit of the workflow; `Descent` makes such vectors well-founded.

`AutoApproval`, `Approvals`, `Budget`, `WsQueue`, `SyncWaiter` and `SoulRuns` are built the same way: steps are
lock sections, database statements and clock readings made outside a lock, runs interleave them
freely, and the classes are proved to perform exactly those steps. In `Approvals` a repository call
is a read, a check and a write with other calls in between: its transactions run at PostgreSQL's
default isolation, where a read takes no lock and an update by id takes the row as it is by then.

Time is a parameter that does not run backwards, money and tokens are `real`, UUIDs and channels
are fresh numbers, and errors of stores, writes, models and tools are arbitrary inputs.

## What the code does that its comments do not say

- A skipped dependency never counts as completed, and a dependency of a plan that was abandoned
  half-way may not exist: a run can end Completed with tasks still Pending.
  `EngineSafety.LeftoversExactly` says exactly which tasks are left, and
  `EngineWitness.CompletedWithLeftover` is such a run.
- A diagnostician whose invocation errs leaves its original task Recovering, and the loop then
  waits until it is cancelled. This is the only way in which a run does not end
  (`EngineTermination.WaitsExactly`, `EngineTermination.EndlessRunsOnlyWait`), and it does happen
  (`EngineWitness.EndlessRunExists`).
- Roles are validated inside the creation loop. A bad role leaves the tasks before it in the store,
  uncounted (`EngineSafety.PlanAccounting`); `LimitsHold` says how far the number of tasks exceeds
  the count, and `CountIsExact` that with valid roles it never does.
- The cost of a batch is added to a record that is then replaced by the stored one. Spend survives
  only when a plan is stored after it (`EngineSafety.StoredSpend`, `EngineSafety.SpendIsForgotten`).
- The splitter counts the fence that it reopened itself. The chunk after a closed chunk has an odd
  number of fences, always; every other cut chunk has an even number (the parity clause of
  `TelegramSplit.SplitMessage`).
- A quote in the tag of a code fence ends the class attribute early (`TelegramHtml.AttributeIsQuoted`);
  `HtmlScan.StrictlyReadableExactly` says for which documents it happens.
- Dropping a leading assistant message from a truncated history, meant to keep the protocol intact,
  leaves its tool results without their calls (`Conversation.OrphanedResult`;
  `Conversation.ResultsBackedExactly` says exactly when).
- Whether a reply asks for tools is decided by its stop reason alone. A reply that stops for another
  reason with a tool call in it is stored with a call that nothing answers
  (`Conversation.UnansweredCall`); `Conversation.CallsAnsweredExactly` says when all are answered.
- The auto-approval cap is checked and charged in different lock sections and can be exceeded by
  the number of concurrent callers minus one (`AutoApproval.CapHolds`), which some run reaches for
  every configuration and every number of callers (`AutoApproval.BoundIsReached`).
- A caller fixes its cutoff before it reads the history of manual approvals. A pruning in between
  takes away approvals that are still inside the caller's window (`AutoApproval.PruningInBetween`);
  `AutoApproval.PruningExactly` says what is counted then.
- A call after the expiry turns a decided approval into an expired one in memory, not in the
  database (`Approvals.DecidedStatus`, `Approvals.LateCallForgetsApproval`). The database's marking
  of a late pending row is rolled back together with the error.
- The repository reads a row and then writes it by id, without a row lock. Two overlapping resolves
  can both be accepted, and a denied row become approved (`Approvals.OverlappingDecisions`); a get
  can overwrite a decision that was committed after it read (`Approvals.GetErasesDecision`).
  `Approvals.SecondDecisionExactly` says exactly when a second decision is accepted, and
  `Approvals.RowStaysExactly` exactly when a row that is no longer pending stays as it is; the
  manager, which holds its lock, is not affected.
- Recording a cost and releasing its reservation both subtract the reservation, so a user can
  spend beyond the limit by what was in flight: `Budget.OvershootIsBounded`, reached by
  `Budget.OvershootIsReached`; for one execution at a time `Budget.NextGoesThrough`.
- Routing a task and counting it are different lock sections: concurrent senders can overload an
  agent. `WsQueue.CapacityHolds` bounds the excess, `WsQueue.CapacityIsReached` reaches the bound for
  every limit, every number of senders and every excess in the agents' reports, and
  `WsQueue.LimitHoldsExactly` says when there is none.
- The core principles are seeded only into an empty log: a seeding that stops half-way is never
  completed (`SoulLog.SoulManager.Load`). An event that arrives before the soul is loaded leaves a
  cache that is right only for an empty log (`SoulLog.UnloadedCache`).
- An evolution appends to the store outside the lock and applies to the cache under it, so two calls
  can be applied in the other order than they were appended, and the cache stays wrong
  (`SoulRuns.AppliedInTheOtherOrder`); `SoulRuns.CacheIsRightExactly` says when it is right. The
  versions are safe: of calls that read the same version the store's unique index takes one.

## Model

| member | source | states |
|---|---|---|
| `Dag.ValidateDAG` | internal/orchestrator/dag.go:11-58 | Accepts a plan exactly when indices are in range, nothing depends on itself and no walk along dependencies is closed; acceptance comes with a topological rank; an index error names the first fault in the order of the tasks and their dependencies, and a cycle error the closing edge of a real cycle in a plan without index faults |
| `Dag.Dfs` | internal/orchestrator/dag.go:32-47 | The three-colour search: ends by the number of white nodes, keeps finished nodes in topological order, and reports only real cycles |
| `Dag.CheckIndices` | internal/orchestrator/dag.go:11-23 | Passes exactly the well-formed plans, and otherwise names the first fault |
| `Dag.GrayHitIsCycle` | internal/orchestrator/dag.go:35-38 | Meeting a gray node closes a walk through the edge just followed |
| `Dag.FinishOrderIsRank` | internal/orchestrator/dag.go:45-57 | Once all nodes are finished, the finishing order is a topological rank |
| `Dag.RankExcludesCycles` | internal/orchestrator/dag.go:11-58 | A plan with a rank has no cycle |
| `Dag.AcyclicHasRank` | internal/orchestrator/dag.go:11-58 | Conversely, every valid plan has a rank |
| `Dag.ResolveDependencies` | internal/orchestrator/dag.go:62-75 | Every task with dependencies gets, in order, the ids that its indices pick out of the list, and no other entry exists |
| `EngineInvariant.StepKeeps` | internal/orchestrator/scheduler.go:76-250 | Every step of every interleaving keeps the engine's invariant: limits, books, batch, completed dependencies, the one-to-one link of recovering tasks and open diagnosticians, the log and an acyclic dependency graph across plans |
| `EngineInvariant.RunKeeps` | internal/orchestrator/scheduler.go:76-250 | So every state of every run satisfies it |
| `EngineSafety.CompletedForever` | internal/orchestrator/task_executor.go:24-98 | A completed task stays completed, keeps its dependencies and is never started again, through retries and recovery |
| `EngineSafety.StartsFollowDependencies` | internal/orchestrator/memory_store.go:124-167 | Each start of a task lies after the one completion of each dependency, and all starts of the dependency lie before that completion |
| `EngineSafety.LimitsHold` | internal/orchestrator/scheduler.go:270-342 | In every reachable state: task count within the limit, number of tasks equal to the count plus the uncounted ones, depth below the depth limit, retries within the retry limit, executions in flight within the concurrency limit |
| `EngineSafety.CountIsExact` | internal/orchestrator/scheduler.go:270-342 | If no plan names an unknown role, the number of tasks equals the task count and is within the limit in every reachable state, through failures, recovery and cancellation |
| `EngineSafety.PlanAccounting` | internal/orchestrator/scheduler.go:259-343 | An accepted plan is counted in full exactly when all roles are valid; it leaves uncounted tasks exactly when a valid role precedes an invalid one |
| `EngineSafety.BatchIsBest` | internal/orchestrator/scheduler.go:164-176 | A batch that leaves a ready task behind is full, has no duplicates, and no task left behind has a smaller priority number than a dispatched one |
| `EngineSafety.LeftoversExactly` | internal/orchestrator/scheduler.go:110-142 | When the loop finds no more work, the unfinished tasks are exactly those with a chain of dependencies to a task that failed, was skipped or was never created |
| `EngineSafety.NoDeadlock` | internal/orchestrator/scheduler.go:110-142 | In runs without agent errors, bad roles and cancellation, some task is ready as long as one is unfinished, so such a run concludes only with everything completed |
| `EngineSafety.DecisionExactly` | internal/orchestrator/recovery.go:30-63 | The original task is queued again exactly for an allowed retry with confidence of at least one half, skipped exactly for a skip, failed for everything else; no other task changes |
| `EngineSafety.StoredSpend` | internal/orchestrator/scheduler.go:226-241 | The stored spend changes only with a plan that is stored whole, and then to what had been added before that plan's own cost |
| `EngineSafety.SpendIsForgotten` | internal/orchestrator/scheduler.go:226-248 | As long as no plan is stored the spend of all batches is dropped and the budget check cannot end the workflow |
| `EngineContent.PlanContent` | internal/orchestrator/scheduler.go:283-337 | After an acceptable plan the store holds what it held and, for each spec before the first unknown role, a pending task with its role and priority, one level below the planner, with exactly as many dependencies as the plan gives it, the k-th on the task of the spec that the k-th index names; and nothing else |
| `EngineContent.StartsFollowPlan` | internal/orchestrator/dag.go:62-75 | In every run, a task that an accepted plan asked for starts, each time, only after the completion of every task that the plan says it depends on, in terms of the plan's own indices |
| `EngineContent.EndsExactly` | internal/orchestrator/scheduler.go:110-142 | In every run the workflow ends at three kinds of step only, and is running until then: failed exactly if a task has failed when there is no more work and otherwise completed; failed exactly if a batch leaves the stored spend above a positive limit; cancelled |
| `EngineContent.EligibleExactly` | internal/orchestrator/scheduler.go:446-481 | Recovery is attempted exactly when it is enabled, the task has failed with a retry left under its own, the configured or the default limit of 2, the diagnosticians have cost less than their positive share of the budget, by default a quarter, and one more task fits |
| `EngineContent.RecoverySpentIsSum` | internal/orchestrator/scheduler.go:623-635 | The cost of recovery is the sum over all tasks of what the diagnosticians cost: nothing for no tasks, and changed by each task by just what it adds |
| `EngineContent.RecoveryContent` | internal/orchestrator/scheduler.go:484-533 | Recovering a task marks it, adds one diagnostician for it, one level deeper and without dependencies, counts it in both records and leaves every other task |
| `EngineContent.ExecutionContent` | internal/orchestrator/task_executor.go:24-137 | An execution makes its task running, then completed with the cost of the answer or failed, and changes no other task and neither workflow record |
| `EngineContent.ReceiveContent` | internal/orchestrator/scheduler.go:201-230 | A failed execution, and the answer of anyone but a planner or a diagnostician, changes no task; every answer adds its cost to the record in memory |
| `EngineTermination.StepFalls` | internal/orchestrator/scheduler.go:76-250 | Every step except waiting lowers the measure: room for tasks, then weights per depth, then the batch |
| `EngineTermination.WaitsExactly` | internal/orchestrator/scheduler.go:144-162 | The loop waits exactly when nothing is ready and the invocation of a diagnostician has failed |
| `EngineTermination.WaitingIsForever` | internal/orchestrator/scheduler.go:144-152 | Once it waits, only cancellation can follow |
| `EngineTermination.Progress` | internal/orchestrator/scheduler.go:76-250 | A run that has not ended can always take a step, cancellation aside |
| `EngineTermination.EndlessRunsOnlyWait` | internal/orchestrator/scheduler.go:76-250 | An endless run waits unchanged from some point on, after a failed diagnosis; no assumption on agents, plans or roles |
| `EngineTermination.RunsEnd` | internal/orchestrator/scheduler.go:446-601 | If every diagnostician returns some output, every run ends |
| `EngineWitness.EndlessRunExists` | internal/orchestrator/scheduler.go:144-152 | An endless run from a fresh workflow: the planner fails, its recovery starts, the diagnostician fails, and the loop waits |
| `EngineWitness.CompletedWithLeftover` | internal/orchestrator/scheduler.go:110-142 | A run from a fresh workflow that is reported completed while a task is still pending: its dependency was skipped by a recovery decision |
| `Scheduler.InMemoryStore.CreateTask` | internal/orchestrator/memory_store.go:65-79 | Adds the task exactly when its id is new |
| `Scheduler.InMemoryStore.UpdateTask` | internal/orchestrator/memory_store.go:81-95 | Overwrites the task exactly when it exists |
| `Scheduler.InMemoryStore.ListTasks` | internal/orchestrator/memory_store.go:108-122 | Lists every task once |
| `Scheduler.InMemoryStore.GetReadyTasks` | internal/orchestrator/memory_store.go:124-167 | Lists exactly the queued tasks whose dependencies are all completed, once each, by priority |
| `Scheduler.InMemoryStore.CountByStatus` | internal/orchestrator/scheduler.go:433-441 | The number of tasks in the given status |
| `Scheduler.InMemoryStore.SkipQueuedTasks` | internal/orchestrator/scheduler.go:381-390 | Skips every queued task and nothing else |
| `Scheduler.WorkflowScheduler.Submit` | internal/orchestrator/engine.go:64-124 | The limits are the request's, else the configured ones, else 5 levels, 50 tasks and 1.0 of budget; the workflow is running with one pending planner as its only task |
| `Scheduler.WorkflowScheduler.ReorderBySkillScore` | internal/orchestrator/scheduler.go:408-430 | For any scores: a permutation, sorted by priority and then by score, a missing score being zero, stable |
| `Scheduler.WorkflowScheduler.ExecuteTask` | internal/orchestrator/task_executor.go:24-137 | Performs the start and finish steps of one task and lowers the measure |
| `Scheduler.WorkflowScheduler.HandlePlannerOutput` | internal/orchestrator/scheduler.go:259-343 | Performs the plan step, and says what that leaves in the store: nothing new for a plan that is not acceptable, and otherwise the tasks the plan asks for with the dependencies its indices name, counted exactly when every role is known |
| `Scheduler.WorkflowScheduler.CreatePlanned` | internal/orchestrator/scheduler.go:288-337 | Creates exactly the tasks before the first unknown role, each with its spec's role and priority and with all of its dependencies, the k-th on the task that the k-th index names |
| `Scheduler.WorkflowScheduler.HandleDiagnosticianOutput` | internal/orchestrator/scheduler.go:536-620 | Performs the decision step on the original task: retry, skip or fail |
| `Scheduler.WorkflowScheduler.HandleResult` | internal/orchestrator/scheduler.go:201-230 | Performs the receive step |
| `Scheduler.WorkflowScheduler.ShouldAttemptRecovery` | internal/orchestrator/scheduler.go:446-481 | Decides exactly eligibility: retries, recovery budget, depth and task limits |
| `Scheduler.WorkflowScheduler.RecoverySpentNow` | internal/orchestrator/scheduler.go:623-635 | The cost of all diagnosticians so far |
| `Scheduler.WorkflowScheduler.InitiateRecovery` | internal/orchestrator/scheduler.go:484-533 | Marks the task recovering, creates its diagnostician and counts it |
| `Scheduler.WorkflowScheduler.AttemptRecoveries` | internal/orchestrator/scheduler.go:114-134 | Reports a recovery exactly when some failed task is eligible, although eligibility changes while the snapshot is walked |
| `Scheduler.WorkflowScheduler.RunBatch` | internal/orchestrator/scheduler.go:178-248 | One batch with any results in any order is a sequence of machine steps that lowers the measure |
| `Scheduler.WorkflowScheduler.CancelRun` | internal/orchestrator/scheduler.go:380-403 | Performs the cancel step |
| `Scheduler.WorkflowScheduler.Run` | internal/orchestrator/scheduler.go:76-250 | Every execution of the loop is a run of the machine; it terminates, and either waits on a failed diagnosis or has ended the workflow with the stored status that its last step calls for: failed if and only if a task has failed when no work is left, failed on an overspent budget, cancelled on cancellation |
| `TelegramSplit.SplitMessage` | internal/gateway/telegram/telegram.go:743-832 | Terminates for every positive limit; the bodies of the chunks concatenate to the text and all other bytes are closings and reopened fences, each with the tag of its block; each cut is at the best place in the part of the remaining text that the limit leaves; chunks are nonempty and at most 4 bytes over the limit; a cut chunk has an even number of fences exactly when the chunk before it was not closed |
| `TelegramSplit.CutChunk` | internal/gateway/telegram/telegram.go:759-828 | One round: cut at the best boundary, toggle the flag by the fences, close and reopen |
| `TelegramSplit.FindCut` | internal/gateway/telegram/telegram.go:759-785 | The last paragraph break, else line break, else space, else a hard cut; never empty |
| `TelegramSplit.TrackFences` | internal/gateway/telegram/telegram.go:790-811 | The number of fences, and the tag of the last one when it opens a block |
| `TelegramSplit.RoundOk` | internal/gateway/telegram/telegram.go:753-829 | Each round keeps the account of original and inserted bytes and makes progress although text is put back |
| `TelegramSplit.CutOfReopening` | internal/gateway/telegram/telegram.go:817-826 | A cut inside a reopened fence keeps its backticks whole and ends outside a code block: what termination rests on |
| `TelegramSplit.ClosingAddsOne` | internal/gateway/telegram/telegram.go:819-820 | The closing adds exactly one fence whatever the chunk ends with |
| `TelegramSplit.BestCutExactly` | internal/gateway/telegram/telegram.go:759-785 | What the best place is, in characters: after the first of the last two newlines in a row, else after the last newline, else after the last space, unless it is at the very start, else the end |
| `TelegramSplit.FencesExactly` | internal/gateway/telegram/telegram.go:790-811 | The fences counted are triples of backticks that do not overlap, each the nearest after the one before it, and none is missed; what follows the last one is the rest of the text |
| `TelegramSplit.LangExactly` | internal/gateway/telegram/telegram.go:797-805 | A tag is the rest of the fence's line without the white space around it |
| `Strings.TrimSpaceExactly` | internal/gateway/telegram/telegram.go:605-612 | Trimming drops white space at both ends and nothing else, and leaves none there |
| `TelegramHtml.EscapeRoundTrip` | internal/gateway/telegram/telegram.go:590-593 | Escaped text has no special character and unescapes to the original |
| `TelegramHtml.MarkdownToTelegramHTML` | internal/gateway/telegram/telegram.go:600-653 | The output is the rendering of the document's pieces, whose text, tags and languages are given by `HtmlContent.DocumentOutputShows` |
| `TelegramHtml.OutputIsBalanced` | internal/gateway/telegram/telegram.go:600-736 | For every input the pieces of the output are balanced, nest only code inside pre, and all text between tags is escaped |
| `HtmlScan.OutputTextIsBalanced` | internal/gateway/telegram/telegram.go:600-736 | The same of the output text itself: a scanner over its characters, which finds the tags in the text, ends with every tag closed and meets no stray angle bracket and no ampersand outside an entity |
| `HtmlScan.ScanIsReading` | internal/gateway/telegram/telegram.go:600-736 | Whenever pieces read well, the scanner reads their rendering the same way; a strict scanner, whose attributes end at the first quote, exactly when no tag has a quote in its language |
| `HtmlScan.StrictlyReadableExactly` | internal/gateway/telegram/telegram.go:610-618 | To the strict scanner the output is readable, and then balanced, exactly when no fence that opens a block has a quote in its tag |
| `TelegramHtml.FormatLine` | internal/gateway/telegram/telegram.go:656-674 | Renders a header in bold or the spans of the line; what that shows is `HtmlContent.LineOutputShows` |
| `TelegramHtml.ScanHeader` | internal/gateway/telegram/telegram.go:658-671 | True exactly for one to six hashes followed by a space |
| `TelegramHtml.FormatInline` | internal/gateway/telegram/telegram.go:678-736 | Renders the spans of the line, left to right; what that shows is `HtmlContent.InlineOutputShows` |
| `TelegramHtml.SpansSpellLine` | internal/gateway/telegram/telegram.go:678-736 | The sources of the spans spell the line: only markers are dropped |
| `TelegramHtml.AttributeIsQuoted` | internal/gateway/telegram/telegram.go:610-618 | The class attribute ends at its own quote exactly when the fence's tag has none |
| `HtmlContent.InlineOutputShows` | internal/gateway/telegram/telegram.go:678-736 | A reader of the output that keeps track of the tags and undoes the escapes sees, character by character, exactly the text of each span: code inside code, bold inside b, italic inside i, the rest bare |
| `HtmlContent.LineOutputShows` | internal/gateway/telegram/telegram.go:656-674 | The same of a whole line; of a header it sees the title, inside b |
| `HtmlContent.DocumentOutputShows` | internal/gateway/telegram/telegram.go:600-653 | The same of a document: its lines in order, joined by newlines; lines between fences verbatim inside pre and code; of an opening fence only its language, of a closing one nothing |
| `HtmlContent.NextSpanExactly` | internal/gateway/telegram/telegram.go:682-718 | Which span comes next, in terms of the marks in the line: code up to the nearest backtick, nonempty bold up to the nearest two stars, nonempty italic up to the nearest star unless that is one of two, else one plain character |
| `HtmlContent.FenceExactly` | internal/gateway/telegram/telegram.go:605-618 | A line is a fence exactly if three backticks come first in it after white space, and its language is the rest without the white space around it |
| `HtmlContent.LinesJoin` | internal/gateway/telegram/telegram.go:602 | The lines joined by newlines are the text, and none has a newline in it |
| `JsonSpan.FindJSONArrayStart` | internal/orchestrator/task_executor.go:193-200 | The first opening bracket, or none |
| `JsonSpan.FindJSONArrayEnd` | internal/orchestrator/task_executor.go:203-234 | The position at which the bracket scanner first closes, or none |
| `JsonSpan.ValueRests` | internal/orchestrator/task_executor.go:203-234 | Scanning any JSON value (sections 2 to 7 of RFC 8259), nested and with brackets and escaped quotes in strings, leaves the scanner where it was |
| `JsonSpan.ArrayEnds` | internal/orchestrator/task_executor.go:203-234 | An array inside any text ends for the scanner where its rendering ends |
| `JsonSpan.ExtractArray` | internal/orchestrator/task_executor.go:163-190 | Whenever the answer holds an array after text without an opening bracket, exactly that array is decoded |
| `Conversation.ConversationStore.Process` | internal/agent/orchestrator.go:407-564 | For any model and tools, the store gains exactly the user's message and this call's turns, in order; the message, in the store and at the end of the first request, is the text itself if it is at most as long as the configured size or 32768, and otherwise its front of that length with the notice; the first request opens with a user message; turns that stopped for tools are followed by their results and results by nothing else; and all calls of the conversation are answered afterwards exactly when they were before and this call leaves none loose |
| `Conversation.Shorten` | internal/agent/orchestrator.go:407-436 | After summarising and truncating, the start index is in bounds and points exactly at the new message |
| `Conversation.TakeTurns` | internal/agent/orchestrator.go:462-564 | At each of the four exits the persisted suffix is the user's message followed by exactly the turns taken, with the flags of the turns that stopped for tools |
| `Conversation.TurnsArePaired` | internal/agent/orchestrator.go:462-564 | Every turn that stopped for tools is directly followed by the results of exactly its calls, in their order |
| `Conversation.CallsAnsweredExactly` | internal/llm/provider.go:101-104 | Every call among the turns is answered by the next message exactly when the reply that ends the loop by itself, if one does, carries no call |
| `Conversation.UnansweredCall` | internal/llm/provider.go:101-104 | A reply with a call and another stop reason, and nothing after it |
| `Conversation.ShorteningKeepsNewMessage` | internal/agent/orchestrator.go:417-436 | Whatever was dropped, the new message is last and the index arithmetic comes out at it |
| `Conversation.FirstSentIsUser` | internal/agent/orchestrator.go:581-594 | Three cuts in a row never leave an assistant message in front |
| `Conversation.ResultsBackedExactly` | internal/agent/orchestrator.go:579-594 | In the first request every message of tool results has its calls right before it exactly when the oldest message kept is not itself a message of results |
| `Conversation.OrphanedResult` | internal/agent/orchestrator.go:589-592 | A history whose truncation leaves results without their calls |
| `Conversation.ExecuteToolCalls` | internal/agent/orchestrator.go:610-672 | The results and the awaited approvals of the calls, in order |
| `Conversation.ResultsAnswerCalls` | internal/agent/orchestrator.go:610-672 | Result ids are the call ids in the same order, whatever the tools do |
| `Conversation.ConversationStore.AppendMessages` | internal/agent/memory_conversation.go:48-55 | Appends any messages and the flags that come with them; what holds of the log and of the messages holds of the longer log |
| `Conversation.ConversationStore.LoadHistory` | internal/agent/memory_conversation.go:57-71 | The newest messages, as many as asked for or as there are, in order |
| `Conversation.ConversationStore.ReplaceToolResult` | internal/agent/memory_conversation.go:73-92 | Replaces the text of the newest result for a call and nothing else, found exactly when there is one; the flagged turns keep their results and the results their calls |
| `ConversationContent.FirstRequestExactly` | internal/agent/orchestrator.go:407-436 | What the first request holds, in numbers: the newest messages up to the limit, without a leading assistant message if something was cut off; or a summary and the four tenths of the limit kept behind it, exactly when it is configured and made, there are eight tenths of the limit or more, and at least four messages are older than those kept |
| `ConversationContent.ResultsExactly` | internal/agent/orchestrator.go:610-672 | The k-th result carries the k-th call's id, the text of its outcome and its error flag; the approvals awaited are exactly those that outcomes wait for |
| `ConversationContent.TurnsExactly` | internal/agent/orchestrator.go:462-564 | The turns of a call are whole rounds, one for each iteration: a reply that stops for tools, and its results, with an awaited approval in the last round only; then perhaps a reply that stops by itself; without one the iterations are used up, the last round awaits an approval, or the model fails |
| `RateLimit.Limiter.Allow` | internal/ratelimit/ratelimit.go:53-84 | Succeeds exactly when an ideal, continuously refilled bucket holds a token |
| `RateLimit.Limiter.constructor` | internal/ratelimit/ratelimit.go:36-49 | The burst is the configured one, else the rate, else 1; so a positive rate always comes with a burst of at least one |
| `RateLimit.CallTakesOne` | internal/ratelimit/ratelimit.go:53-84 | A success lowers the ideal level by one token at every later time, up to the capacity, and a refusal changes nothing |
| `RateLimit.LimiterIsIdealBucket` | internal/ratelimit/ratelimit.go:53-84 | A fresh limiter answers each user, among any other calls, exactly as a bucket of its own that is full at the start and is topped up at arbitrary moments between the calls |
| `RateLimit.LevelFlows` | internal/ratelimit/ratelimit.go:70-76 | The lazily kept level obeys the flow equation between any two moments |
| `RateLimit.BurstPlusRate` | internal/ratelimit/ratelimit.go:53-84 | In any interval of length T a user gets at most burst + rate * T successes |
| `RateLimit.UsersAreIndependent` | internal/ratelimit/ratelimit.go:62-68 | A user gets the answers it would get alone |
| `RateLimit.SteadyUserIsServed` | internal/ratelimit/ratelimit.go:53-84 | A user who keeps 1 / rate between calls is never refused |
| `AutoApproval.CapHolds` | internal/approval/auto.go:54-106 | With n interleaved callers, counter plus callers about to charge it never exceed the cap by more than n - 1, across hour resets |
| `AutoApproval.BoundIsReached` | internal/approval/auto.go:54-106 | For every configuration and every n, a run from a fresh approver reaches that bound |
| `AutoApproval.CounterExactly` | internal/approval/auto.go:64-106 | In every run a user's counter is the number of grants to that user since the hour last changed |
| `AutoApproval.EntryExactly` | internal/approval/auto.go:64-75 | So in every run a caller passes the cap exactly when the hour is a new one or fewer grants than the cap were made to that user in it |
| `AutoApproval.PruningExactly` | internal/approval/auto.go:76-89 | In every run, with the clock read before the history, a count on the pruned history is the full log's count at the later of the caller's cutoff and the last pruning; never more than the full log's count, and equal to it exactly when no approval lies between the two |
| `AutoApproval.GrantIsJustified` | internal/approval/auto.go:76-95 | What is granted, the full log would have granted too |
| `AutoApproval.PruningInBetween` | internal/approval/auto.go:77-81 | A run in which a pruning between the clock and the history makes a caller count one approval less |
| `AutoApproval.AutoApprover.ShouldAutoApprove` | internal/approval/auto.go:54-106 | Alone, it approves exactly when the tool is allowed, the user's counter of this hour is below the cap and enough approvals are recent, and charges one; in a new hour the counters are cleared first, so only the caller has one afterwards, and it is 1 |
| `AutoApproval.AutoApprover.RecordManualApproval` | internal/approval/auto.go:109-125 | Appends to the key's approvals and prunes them, and changes no other key and no counter |
| `Approvals.SameDecisions` | internal/approval/approval.go:157-187 | If the resolves of an id do not overlap, the manager and the repository accept exactly the same decisions on it, only at or before the expiry, whatever happens to other ids, whenever either side cleans up, and with gets overlapping anything |
| `Approvals.SameDecisionsExactly` | internal/storage/postgres/approval_repo.go:69-95 | With any overlap: the two agree on accepting a call exactly when it is late or about nothing, or when memory has decided the approval if and only if some decision was committed before the call's row was read |
| `Approvals.AtMostOneDecision` | internal/storage/postgres/approval_repo.go:69-95 | And then the repository accepts at most one decision on it |
| `Approvals.AcceptedExactly` | internal/storage/postgres/approval_repo.go:69-95 | With any overlap: a decision is accepted exactly when the approval existed when its row was read, no decision had been committed before that read, and the call's clock reading is not after the expiry |
| `Approvals.SecondDecisionExactly` | internal/storage/postgres/approval_repo.go:69-95 | After one accepted decision, a second one in time is accepted exactly when its row was read before any decision was committed |
| `Approvals.OverlappingDecisions` | internal/storage/postgres/approval_repo.go:71-93 | A run in which two overlapping resolves are both accepted, the row goes from denied to approved, and the manager refuses the second |
| `Approvals.GetErasesDecision` | internal/storage/postgres/approval_repo.go:41-57 | A run in which a get marks a row expired that was approved after it read |
| `Approvals.RowStaysExactly` | internal/storage/postgres/approval_repo.go:41-95 | A row that is no longer pending stays as it is until it is deleted, in everything that can happen, exactly when no call under way threatens it: a resolve about to commit another decision, or that read the row pending and is still in time to; a get about to mark it, or that read it pending |
| `Approvals.RowChangesExactly` | internal/storage/postgres/approval_repo.go:41-111 | What changes a decided row: the commit of another decision or the marking by a get, and nothing else |
| `Approvals.MemAcceptsExactly` | internal/approval/approval.go:157-187 | The manager accepts exactly when the approval exists, is undecided and has not run out |
| `Approvals.MemAcceptsOnce` | internal/approval/approval.go:157-187 | The manager accepts at most one decision on an approval |
| `Approvals.UndisturbedResolve` | internal/storage/postgres/approval_repo.go:69-95 | The statements of a resolve that nothing disturbs are one step of the table |
| `Approvals.UndisturbedGet` | internal/storage/postgres/approval_repo.go:41-57 | The statements of a get that nothing disturbs are one marking on access |
| `Approvals.DeniedNeverApproved` | internal/approval/approval.go:148-187 | In the manager, what was denied or expired is at no later time approved |
| `Approvals.DecidedStatus` | internal/approval/approval.go:166-169 | A decided entry in memory loses its status exactly on a resolve after the expiry |
| `Approvals.LateCallForgetsApproval` | internal/approval/approval.go:166-169 | A run from the creation on in which a late denial makes an approved entry expired, in memory only |
| `Approvals.Manager.GetApproval` | internal/approval/approval.go:190-205 | Never returns a pending approval after its expiry |
| `Approvals.Manager.Cleanup` | internal/approval/approval.go:208-223 | Marks the overdue and deletes the old, in whatever order the map is visited |
| `Approvals.ApprovalRepository.ResolveApproval` | internal/storage/postgres/approval_repo.go:69-95 | Verdict on the row as it was read; an accepted decision is written to the table as other calls have left it, an error leaves that table alone |
| `Approvals.ApprovalRepository.GetApproval` | internal/storage/postgres/approval_repo.go:41-57 | Marks the row by id if it was read pending and overdue, whatever it has become |
| `Approvals.ApprovalRepository.ExpireOld` | internal/storage/postgres/approval_repo.go:98-103 | Expires exactly the overdue pending rows |
| `Approvals.ApprovalRepository.DeleteResolved` | internal/storage/postgres/approval_repo.go:106-111 | Deletes exactly the decided or expired rows created before the cutoff |
| `Budget.ReservedIsOutstanding` | internal/security/budget.go:60-89 | While nothing is recorded, the reserved amount is the sum of the reservations not yet released |
| `Budget.ReservationsFit` | internal/security/budget.go:60-89 | And with nonnegative costs, spent plus reserved never passes the limit |
| `Budget.NegativeCostBreaksLimit` | internal/security/budget.go:60-89 | For every account within its limit and every negative estimate, a run with no other negative cost promises more than the limit |
| `Budget.OvershootIsBounded` | internal/agent/orchestrator.go:923-954 | With n interleaved executions of cost at most c, spent plus held stays within limit + n * c |
| `Budget.OvershootIsReached` | internal/security/budget.go:81-104 | For every n and c a run reaches limit + n * c |
| `Budget.ReservedIsMinusLast` | internal/security/budget.go:81-104 | Between sequential executions the reserved amount is minus the last cost |
| `Budget.NextGoesThrough` | internal/agent/orchestrator.go:923-954 | The next execution runs exactly when it keeps the spend within the limit plus the previous cost |
| `Budget.SpentWithinOneMore` | internal/agent/orchestrator.go:923-954 | The spend never passes the limit by more than the dearest execution |
| `Budget.BudgetManager.CheckBudget` | internal/security/budget.go:36-55 | Passes exactly when the cost fits; creates the account, and changes nothing else |
| `Budget.BudgetManager.ReserveBudget` | internal/security/budget.go:60-89 | Reserves exactly when spent, reserved and the cost together are within the limit; other users are untouched |
| `Budget.BudgetManager.Release` | internal/security/budget.go:80-88 | Gives the reservation back once, however often it is called |
| `Budget.BudgetManager.ExecuteWithAudit` | internal/agent/orchestrator.go:923-954 | Runs exactly when the cost fits, and then spends it; the reserved amount loses what was reserved twice, down to zero in between; refused, it changes nothing |
| `AgentRegistry.Registry.Route` | internal/agent/registry.go:124-160 | A least loaded agent among those that fit, and none exactly when none fits |
| `AgentRegistry.Registry.RemoveStale` | internal/agent/registry.go:237-262 | Evicts exactly the agents last seen before the cutoff |
| `WsQueue.TicketsConserved` | internal/gateway/ws/server.go:363-452 | In every interleaving, routing scans included, each queued task is waiting once or answered once, and those that wait are in the order in which they came |
| `WsQueue.AnsweredForever` | internal/gateway/ws/server.go:437-452 | An answered task has one answer forever and never waits again |
| `WsQueue.CapacityHolds` | internal/gateway/ws/server.go:417-434 | With n senders and agents that report at most MaxParallel + k, no counter passes MaxParallel + n + k; for one sender without reports that is MaxParallel |
| `WsQueue.CapacityIsReached` | internal/gateway/ws/server.go:417-434 | For every MaxParallel m, n and k some run from the start with at most n senders and reports of at most m + k reaches m + n + k |
| `WsQueue.SilentCapacityIsReached` | internal/agent/registry.go:124-198 | Without any heartbeat some run with n senders reaches m + n - 1: two senders can both take the last slot |
| `WsQueue.LimitHoldsExactly` | internal/gateway/ws/server.go:417-434 | MaxParallel holds in every run with at most n senders and reports of at most MaxParallel + k exactly when n + k is at most zero |
| `WsQueue.StaysConnected` | internal/agent/registry.go:97-112 | A registration ends only with its own connection, a newer one or staleness; an old connection never removes it |
| `WsQueue.Server.AssignTask` | internal/gateway/ws/server.go:363-390 | Sends to a least loaded agent, or queues at the end exactly when none fits |
| `WsQueue.Server.DrainPendingTasks` | internal/gateway/ws/server.go:437-452 | In-place compaction: answers a prefix, each task by an agent that was a least loaded fitting one by then, keeps the rest in order, leaves something only when no agent fits, adds to each counter exactly what was written to the agent, and takes no agent past its limit |
| `WsQueue.Server.RequeueTask` | internal/gateway/ws/server.go:523-538 | Queues at the end and drains, each task again to an agent that was a least loaded fitting one by then |
| `SyncWaiter.AtMostOneResult` | internal/gateway/ws/sync.go:36-66 | A channel gets at most one result in every run, so the send never blocks |
| `SoulLog.Materialize` | internal/soul/soul.go:142-154 | The replay is the section-by-section view of the log |
| `SoulLog.ViewStep` | internal/soul/soul.go:157-206 | One event applied to the view of a log is the view of the longer log |
| `SoulLog.ViewShows` | internal/soul/soul.go:142-206 | Every event of a known category is in that category's section, behind exactly the earlier events of the category, with its own title, text, time, id and evidence; no section holds anything else; version and time are those of the last event |
| `SoulLog.PrinciplesStay` | internal/soul/soul.go:157-206 | No principle is ever changed, moved or dropped by later events |
| `SoulLog.UnloadedCache` | internal/soul/manager.go:129-134 | Evolving before loading gives the right cache exactly for an empty log |
| `SoulLog.SoulManager.Load` | internal/soul/manager.go:63-104 | A successful load caches the view of the log, seeding only an empty one, which then shows the principles in order; either listing and any append can fail |
| `SoulLog.SoulManager.Evolve` | internal/soul/manager.go:107-151 | Once loaded the cache stays the view of the whole log, and versions count the events |
| `SoulRuns.CacheIsRightExactly` | internal/soul/manager.go:107-134 | With any overlapping calls after a load, the cache is the view of the log exactly when no call is between its append and its application, each section's events were applied in the order in which they were appended, and the last applied is the last appended |
| `SoulRuns.SerialCacheIsRight` | internal/soul/manager.go:107-134 | If at most one call at a time is in between, the cache is the view of the log whenever none is |
| `SoulRuns.AppliedInTheOtherOrder` | internal/soul/manager.go:125-134 | A run that ends with an old version and two notes in the wrong order in the cache |
| `SoulRuns.VersionsCountEvents` | internal/storage/postgres/models.go:453-456 | The versions of the log are 1, 2, 3 and so on in every run |
| `SoulLog.SoulManager.SeedCorePrinciples` | internal/soul/manager.go:188-217 | Seeds the principles in order up to the first refusal of the store |

## Left out

- Scheduler.WorkflowScheduler.RunBatch: executes the tasks of a batch one after the other, so the code itself shows one order of goroutines; all orders are runs of `Engine`, about which the theorems are stated.
- Scheduler.WorkflowScheduler.Run: returns at the point where the source sleeps and looks again, because nothing but cancellation can follow there.
- Scheduler.InMemoryStore.GetReadyTasks: does not order equal priorities by creation time; any order of equal priorities is covered.
- Scheduler.WorkflowScheduler.Submit: models the limits and the first task, not the background goroutine, the table of cancel functions or the audit record.
- RateLimit.Limiter.Allow: real numbers for `float64`; rounding is not modelled.
- Budget.OvershootIsBounded: real numbers for `float64`.
- Scheduler.InMemoryStore.ListTasks: does not order by creation time; any order is covered.
- AgentRegistry.Registry.Route: scans a registry that stands still; in `WsQueue` a routing decision may mix counters read at different moments.
- Approvals.ApprovalRepository.ResolveApproval: errors of the database itself are not modelled.
- TelegramSplit.SplitMessage: a message longer than a limit of zero or less is excluded; the source does not get past it.
- TelegramHtml.FormatLine: `TrimSpace` trims ASCII white space only.
- Conversation.ConversationStore.Process: the ephemeral fallback after a failed load, lazy tool loading and token counts; `int(float64(max) * 0.4)` is integer division; a failed append to the store is not modelled.
- Conversation.ConversationStore.ReplaceToolResult: slices share memory with loaded histories in the source; here a loaded history is a value.
- SoulLog.SoulManager.Evolve: the class runs one call at a time; overlapping calls are in `SoulRuns`.
- `FilterReadyTasks` of `dag.go`: only tests call it; `Scheduler.InMemoryStore.GetReadyTasks` has the filter the engine uses.
- WsQueue.Server.DrainPendingTasks: the class drains undisturbed; interleaving with other senders is in `WsQueue.TicketsConserved` and `WsQueue.CapacityHolds`.
- Several workflows in one store; tasks, messages and outputs carry no texts; failures of the workflow store.
- Decoding of JSON (plans, recovery decisions, evidence) and of configuration: decoded values are inputs.
- Skill scoring: scores are an arbitrary map.
- The WebSocket task tracker, the agent poller, the PostgreSQL workflow and budget repositories, scheduled jobs, LLM providers, sandboxes, vault, observability and the HTTP, Slack, Signal and CLI gateways.
- RBAC and policy lists, prompts, keyword detection and factories, which would only add easy members.
