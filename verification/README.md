# Virtual machine controller: verified models

The controller runs a desktop for one user: it takes chat messages from a web page and from a
Telegram bot, runs them as jobs through a language-model agent, keeps notifications, schedules and
metrics, and reads and writes its own configuration file.  This project models the parts where order,
crashes and bounds matter, and proves what they promise, on every input and every run.

Every operation that changes state step by step is a method over fields, arrays or a byte stream, and
is proved against a function or a transition system; the promises are then proved about those.

| files | what they model |
|---|---|
| `IngressStore`, `IngressProtocol`, `IngressEffects`, `IngressService`, `IngressBound`, `IngressJobs` | exactly-once acceptance of Telegram updates: the store scripts, the transition system of poller, submissions and crashes, the code as runs of it, when the index is bounded, and poller and worker as one system |
| `JobQueue`, `JobBounds`, `JobSharpness`, `JobOutcomes`, `JobManager` | the job queue, one store command per step: no job lost, a sharp execution bound, no starvation, and a finished job stays finished |
| `PromptMessages`, `PromptCompaction`, `CompactionProperties`, `CompactionIdempotence`, `CompactionKept`, `PromptReduction`, `PromptBudget`, `PromptExactly`, `PromptMarkers`, `PromptGrounding`, `PromptOrphans`, `PromptRun`, `PromptRound`, `PromptRepeats`, `PromptTask` | the prompt: five list transformations in a graduated loop under a context budget, and the agent's loop around them |
| `LifecycleModel`, `LifecycleService`, `LifecycleNotes`, `LifecycleDates` | the crash and clean marker file and the notifications it accounts for |
| `NotificationStore`, `NotificationService`, `NotificationPaging` | the bounded notification list, its scripts, and paging while others write |
| `Ulid`, `Radix`, `Lexical` | monotone identifiers; digits and the order of strings |
| `YamlText`, `YamlScalar`, `YamlReading`, `YamlReadBack`, `YamlParser`, `YamlGrammar`, `YamlEmitter`, `YamlWriting`, `YamlRoundTrip`, `YamlTheorems`, `YamlWriter` | the strict configuration format: parser, the grammar it accepts exactly, commented writer, and exactly when they undo each other |
| `WebSocketFrames`, `WebSocketBytes`, `WebSocketClient`, `WebSocketService` | the two frame codecs of RFC 6455 and the loops around them |
| `Metrics`, `MetricsMeans`, `ChartData` | the tiered metrics store and the merging of bars |
| `Chunk` | cutting a reply into messages |
| `Selector`, `SelectorNormal`, `SelectorTime`, `SelectorMeaning`, `ProjectSchedule` | time selectors, their windows, and the deduplication of scheduled jobs |

`dafny verify dfyconfig.toml` checks everything.

## Where the code is not what one might expect

- A job with M retries and C crashes can start (C + 1) * M + 1 times, which is proved to be a bound and,
  for all M and C, to be reached: a crash between putting a deferred job back and clearing the in-flight
  slot leaves two copies, each with its own attempts (`JobBounds.ExecutionBound`,
  `JobSharpness.BoundIsAttained`).
- A prompt can be sent with an "unchanged" marker and no full observation before it.  The hash of what was
  observed last outlives the observation: once a reduction has taken it (dropped with its round, given up
  with the history, left behind by an overflow, or a screenshot robbed of its image), the same page
  observed again becomes a marker alone; and a drop can take the observation from a marker already there.
  `PromptRun.PromptGroundedIff` says exactly when, over every run of a task, and `AttemptTakesIff`,
  `OverflowTakesIff` and `DropImageTakesIff` which reductions take it; `PromptGrounding.PrepareGroundedIff`
  says it for one preparation, `PromptOrphans.OrphanBudgetIff` for which prompts some context window does
  it, and `PromptRepeats.OverflowOrphans` shows a run.
- `plainSafe` lets through strings the parser refuses or reads differently (a leading bracket, brace,
  quotation mark, `&`, `*`, `- `, an unbalanced quotation mark, and after a key also `!`, `|` and `>`);
  and a quoted string that holds ` *`, `: !` or `: |` is refused because the check for unsupported syntax
  looks inside quotation marks.  `YamlReadBack.Readable` is the exact test, per position.
- A scheduled job can be enqueued twice for one date and bucket when the selector is changed and changed
  back on one day, but only between "anytime" and another bucket on a day both selectors name; with any
  other selectors it cannot, whatever the updates (`ProjectSchedule.OncePerBucketIff`).
- The offset shown in the status is set after the stored one and may lag it by one update, but no more,
  when the generation is cancelled in between (controller/internal/telegram/service.go:758-768;
  `IngressProtocol.StatusLagsByOne`, `IngressBound.StatusCanLag`).
- An update whose sender stops being authorised between two deliveries is passed over, and the incomplete
  record its first submission left stays in the index and stops eviction behind it, so that the index
  grows past 1000 and without end, though no update runs twice.  `IngressBound.IndexBoundIff` says that
  the bound holds in every run exactly when no update may be passed over while its record is incomplete.

## Model

| member | source | states |
|---|---|---|
| IngressStore.EvictEffect | controller/internal/chat/chat.go:47-57 | the reserve script only ever takes complete records off the front of the index, stops at the first incomplete one, and keeps the order of the rest |
| IngressStore.ReserveKeeps | controller/internal/chat/chat.go:39-58 | reserving keeps the index, the records and the effect counts consistent, and forgets no update it ever knew |
| IngressStore.SubmitStepKeeps | controller/internal/chat/chat.go:253-344 | one command of one submission keeps the store consistent, and the submission's own copy of the stage never gets ahead of the stored one |
| IngressStore.SubmitStepKeepsOthers | controller/internal/chat/chat.go:253-344 | it also keeps the copy of every other concurrent submission, of the same or another update, behind the stored stage |
| IngressStore.AtMostOnce | controller/internal/chat/chat.go:60-80 | no update is queued more often than counted, counted more often than appended, or appended twice |
| IngressStore.UninterruptedRun | controller/internal/chat/chat.go:253-344 | a submission nobody interrupts finishes within five commands from whatever a crashed one left, with exactly one of each effect |
| IngressProtocol.StepKeepsInv | controller/internal/telegram/service.go:693-781 | every step of pollers, submissions, crashes, cancelled generations and other writers keeps the protocol invariant |
| IngressProtocol.RunKeepsInv | controller/internal/telegram/service.go:693-781 | so does every run |
| IngressProtocol.ExactlyOnce | controller/internal/chat/chat.go:253-344 | in every run each update causes at most one append, one increment and one queue append; each accepted update below the stored offset caused exactly one of each; no update is skipped |
| IngressEffects.StepWrites | controller/internal/chat/chat.go:39-80 | what the counts stand for: a step counts an append exactly if the history becomes the last 200 of itself and the entry of the update, a query exactly if the counter goes up by one, and a job exactly if the job list gains it at its end; otherwise each list is as it was |
| IngressEffects.WrittenOnce | controller/internal/chat/chat.go:253-344 | so in every run each update is written to the history, to the counter and to the job list at most once each, and an accepted one exactly once each |
| IngressProtocol.EvictedBelowOffset | controller/internal/chat/chat.go:46-57 | every evicted update was complete and lies below the offset the poller will ask for next, so bounding the index at 1000 never lets an update run twice |
| IngressProtocol.OffsetsNeverDecrease | controller/internal/telegram/service.go:754-768 | neither the stored offset nor the poller's own ever moves back |
| IngressProtocol.RedeliveryCompletes | controller/internal/chat/chat.go:253-344 | whatever earlier attempts left behind, one uninterrupted submission of the update in hand ends with exactly one of each effect |
| IngressService.Valkey.EvictComplete | controller/internal/chat/chat.go:46-57 | the eviction loop, command by command, does what the specification of the script says |
| IngressService.Valkey.ReserveScript | controller/internal/chat/chat.go:39-58 | the script returns the stored record if there is one, else stores the new one, indexes it and evicts |
| IngressService.Valkey.HistoryScript | controller/internal/chat/chat.go:60-69 | from stage reserved, and from no other, the history becomes the last 200 of itself and the entry of the update |
| IngressService.Valkey.StatsScript | controller/internal/chat/chat.go:71-80 | counts the query only from stage message |
| IngressService.Valkey.EnqueueScript | controller/internal/jobs/manager.go:32-48 | appends the job only from stage stats, reports how many are ahead, and reports a duplicate afterwards |
| IngressService.SubmitTelegram | controller/internal/chat/chat.go:253-344 | performs a prefix of the commands of one submission, all of them unless a command is lost or the record is gone; a complete one leaves the record complete, and reports a duplicate exactly if it was complete before |
| IngressService.SubmissionReaches | controller/internal/chat/chat.go:253-344 | any prefix of a submission is a run of the protocol |
| IngressService.Poller.Process | controller/internal/telegram/service.go:848-916 | processing one update, cut short anywhere or failing to log its event, even after it was accepted, is a run of the protocol |
| IngressProtocol.StatusLagsByOne | controller/internal/telegram/service.go:754-768 | in every run the offset the next generation polls from lags the stored one by one update at most |
| IngressBound.StatusCanLag | controller/internal/telegram/service.go:754-768 | a run in which it does |
| IngressBound.IndexIsBounded | controller/internal/chat/chat.go:46-57 | in every run in which no update is passed over while its record is incomplete, the index has at most 1000 entries |
| IngressBound.IndexOutgrows | controller/internal/chat/chat.go:46-57 | for any update and any size, a run that passes over that one update while its record is incomplete and ends with a longer index |
| IngressBound.IndexBoundIff | controller/internal/chat/chat.go:46-57 | so the bound holds in every run exactly when no update may be passed over while its record is incomplete |
| IngressService.Poller.Save | controller/internal/telegram/service.go:754-768 | the offset is stored before it is published, and a completed save has both just past the update |
| IngressService.Poller.ProcessBatch | controller/internal/telegram/service.go:693-781 | a response processed in order, cut short anywhere, is a run of the protocol; a complete pass leaves the offset past the last update |
| IngressService.History.EnsureMessage | controller/internal/chat/chat.go:346-361 | the message is in memory exactly once afterwards, and only the oldest entry may have made room |
| IngressJobs.MoveKeeps | controller/internal/jobs/manager.go:204-231 | every step of poller, submissions, worker and crashes together keeps each side in a run of its own, the lists one and the same, and the jobs with such ids those of the updates queued |
| IngressJobs.AcceptedIsWorked | controller/internal/chat/chat.go:307-331 | end to end: in every run of poller and worker the job of each accepted update is waiting, in flight or finished, cannot be withdrawn, and is executed at most (C + 1) * 2 + 1 times |
| JobQueue.StepKeepsInv | controller/internal/jobs/manager.go:253-342 | every single store command, crash, restart, enqueue, withdrawal and removal keeps every job waiting, in flight, finished or removed at the request of its owner |
| JobQueue.NoJobIsLost | controller/internal/jobs/manager.go:253-342 | conservation in every reachable state: each job is waiting, in flight, finished or removed, and removed only if its own connection ended or asked for jobs of its kind to be dropped; at most one job is in flight |
| JobBounds.CommandSpends | controller/internal/jobs/manager.go:253-342 | a command never creates a chance to execute a job |
| JobBounds.CrashCharges | controller/internal/jobs/manager.go:331-342 | a crash adds at most the retries of the job to its chances |
| JobBounds.StepPotential | controller/internal/jobs/manager.go:296-342 | the potential of a known job rises only at a crash |
| JobBounds.ExecutionBound | controller/internal/jobs/manager.go:305-342 | over any run with C crashes a job with M retries starts at most (C + 1) * M + 1 times |
| JobBounds.PositionAdvances | controller/internal/jobs/manager.go:253-282 | no step moves a waiting scheduled job back, and a poll that takes another one moves it forward |
| JobBounds.TakenInTurn | controller/internal/jobs/manager.go:253-282 | a scheduled job at position k is taken within k + 1 polls that reach its list, whatever precedes it and whatever is enqueued meanwhile |
| JobBounds.ExecutedInTurn | controller/internal/jobs/manager.go:253-282 | no starvation: without a crash, a due scheduled job at position k has been executed by the time the worker has polled its list k + 2 times |
| JobManager.Manager.Acquire | controller/internal/jobs/manager.go:253-282 | the two lists in order, each with one move; a deferred job goes back to its own list; cut short anywhere it is a run of the queue |
| JobManager.Manager.TryList | controller/internal/jobs/manager.go:253-282 | one list: nothing, a deferred job put at its back, or the first job moved to the in-flight slot; told by the lists themselves |
| JobManager.Manager.Ack | controller/internal/jobs/manager.go:284-303 | the record is written before the slot is cleared |
| JobManager.Manager.NackJob | controller/internal/jobs/manager.go:305-329 | one more attempt on record; back to its list, or dead and finished once the retries are used up; then the slot is cleared |
| JobManager.Manager.RecoverInflight | controller/internal/jobs/manager.go:331-342 | a job found in flight at the start counts as a failed attempt |
| JobManager.Manager.RunOne | controller/internal/jobs/manager.go:374-409 | success leaves one done record that says so, cancellation one that does not, both with every list as it was; a failure with attempts left puts the envelope with one more attempt at the back of its own list, and another in the dead list with its record; a job cancelled meanwhile is finished whatever the executor says |
| JobOutcomes.DoneIsDone | controller/internal/jobs/manager.go:374-409 | in every run without a crash, a job whose executor succeeded, or that was cancelled, is never started again and waits in no list |
| JobManager.Manager.WorkerTurn | controller/internal/jobs/manager.go:411-432 | one turn of the loop is a run of the queue, cut short or not |
| JobManager.Manager.Enqueue | controller/internal/jobs/manager.go:186-202 | the envelope is appended once, with the number of jobs ahead of it |
| JobManager.Manager.DropFrom | controller/internal/jobs/manager.go:607-620 | exactly the envelopes the withdrawal covers go, in a run of removals, and the others keep their order; cut short anywhere it is still a run of removals |
| JobManager.Manager.Drop | controller/internal/jobs/manager.go:596-645 | a connection that ends, or stops its jobs of one kind: the running job is cancelled if it is covered, both lists lose exactly what is covered, and it is a run of the queue |
| JobSharpness.AllFail | controller/internal/jobs/manager.go:305-342 | if every attempt fails, the copies waiting are executed exactly as often as they have chances |
| JobSharpness.BoundIsAttained | controller/internal/jobs/manager.go:266-342 | the bound is sharp for every number of retries and crashes: there is a run of a deferred scheduled job that reaches (C + 1) * M + 1 |
| PromptRun.RoundKeepsSound | controller/internal/agent/agent.go:336-411 | a message with calls, one reply for each call in order, and the observations after them keep the list well formed |
| PromptTask.Task.Act | controller/internal/agent/agent.go:336-411 | the loop over the calls adds one round, with whatever the tools returned, or is cut short by the step limit, after which no prompt is sent |
| PromptRound.ShownIs | controller/internal/agent/budget.go:304-341 | an observation shows the text, cut to its limit, with the image if there is one, and only that nothing changed exactly if the last one was of the same tool, text and image |
| PromptRound.CapIs | controller/internal/agent/budget.go:53-59 | the limit of an observation is three quarters of the context, within 4096 and 65536 bytes |
| PromptRound.RoundAdds | controller/internal/agent/agent.go:336-411 | a round adds the message with the calls, one reply per call in order, cut to 8192 bytes or the stub of an observation, and one observation per observing call in order |
| PromptTask.Task.Ask | controller/internal/agent/agent.go:267-300 | an attempt; when the context is exceeded the hard reset and another attempt; then the reduced observation, and a last one if that changed anything; every prompt sent is proper |
| PromptTask.Task.Handle | controller/internal/agent/agent.go:246-420 | over a whole task: it ends; every prompt sent obeys the tool-call protocol, holds the system prompt and a user message, fits the context, and has a full observation before each marker exactly as far as the recorded steps have left one; there are at most three for each step and one retry |
| PromptMessages.ToolRoundStarts | controller/internal/agent/budget.go:104-112 | the loop finds the indices of all assistant messages with calls after the history |
| PromptCompaction.LatestObservations | controller/internal/agent/agent.go:438-451 | the backward scan finds the last full observation and the last later unchanged marker |
| PromptCompaction.ActiveToolStubs | controller/internal/agent/agent.go:462-484 | the loop over rounds finds the stubs whose observation is selected |
| PromptCompaction.CompactTaskMessages | controller/internal/agent/agent.go:428-497 | the loops build the compacted list, whose contents the next four rows state |
| CompactionKept.LastFourStay | controller/internal/agent/agent.go:432-437 | the smaller of four and their number of rounds stay: the result is the history, at most one message more, and the shape of the list from its fourth-last round on |
| CompactionKept.WhatIsCarried | controller/internal/agent/agent.go:452-457 | that one message is the last full observation, and is there exactly if the rounds kept do not hold it |
| CompactionKept.NothingIsCarried | controller/internal/agent/agent.go:438-457 | without a full observation there is none |
| CompactionKept.WhatStays | controller/internal/agent/agent.go:485-495 | from there on every message that is no stub stays as it is, except an observation that a later one replaces, which becomes the placeholder |
| CompactionKept.WhichStubsStay | controller/internal/agent/agent.go:462-495 | the k-th stub of a round stays exactly if the k-th observation of that round does, and else becomes its placeholder |
| CompactionKept.StrayStubs | controller/internal/agent/agent.go:462-495 | a stub in front of the first round becomes the placeholder |
| CompactionProperties.CompactKeepsProtocol | controller/internal/agent/agent.go:428-497 | no tool reply without its call and no call without its replies, before and after; the history is untouched |
| CompactionProperties.CompactKeepsNewestRound | controller/internal/agent/agent.go:432-495 | the newest round keeps its calls, its replies and its length |
| CompactionProperties.OneObservationOfEachKind | controller/internal/agent/agent.go:438-495 | at most one full observation and one unchanged marker are left, the marker later |
| CompactionProperties.LastFullIsKept | controller/internal/agent/agent.go:452-457 | the last full observation is kept unchanged whenever there was one, so a kept marker always has it |
| CompactionIdempotence.StubsArePaired | controller/internal/agent/agent.go:462-495 | in every round of the result each stub that announces an observation has its own observation there |
| CompactionIdempotence.StubsStayLive | controller/internal/agent/agent.go:462-495 | a stub kept by one compaction is kept by the next |
| CompactionIdempotence.CompactIsIdempotent | controller/internal/agent/agent.go:428-497 | compacting twice with the same history end changes nothing more, for any messages |
| PromptReduction.CompactOlderToolText | controller/internal/agent/budget.go:121-144 | older tool text is cut to its first line and 512 bytes, nothing else changes, and the report of a change is exact |
| PromptReduction.DropOldestToolRound | controller/internal/agent/budget.go:146-152 | the oldest round goes exactly when there are two |
| PromptReduction.ShrinkLatestObservation | controller/internal/agent/budget.go:183-221 | the last full observation is halved down to the floor, and the report of a change is exact |
| PromptReduction.CompactAfterContextError | controller/internal/agent/agent.go:499-536 | the system prompt, the last user message, the observation a kept marker needs and the newest round are kept, then compacted |
| PromptReduction.CompactKeeps | controller/internal/agent/agent.go:428-497 | task compaction keeps the protocol, the system prompt, a user message and the newest round |
| PromptReduction.CompactOlderKeeps | controller/internal/agent/budget.go:121-144 | so does cutting older tool text |
| PromptReduction.DropOldestKeeps | controller/internal/agent/budget.go:146-152 | so does dropping the oldest round, which is never the newest |
| PromptReduction.ShrinkLatestKeeps | controller/internal/agent/budget.go:183-221 | so does shrinking the observation |
| PromptReduction.AfterContextErrorKeeps | controller/internal/agent/agent.go:499-536 | so does the hard reset, with the history end now at 2 |
| PromptBudget.PrepareKeeps | controller/internal/agent/budget.go:236-293 | so does the whole of prompt preparation, for every budget and ratio |
| PromptBudget.FitsTheContext | controller/internal/agent/budget.go:95-98 | a prompt accepted leaves its completion and 512 tokens of margin within the context; the completion is the largest that does, up to a quarter of the context |
| PromptBudget.DropIsCheaper | controller/internal/agent/budget.go:61-93 | dropping a round lowers the estimate |
| PromptBudget.DropRemovesOneRound | controller/internal/agent/budget.go:146-152 | dropping a round drops exactly one |
| PromptBudget.ShrinkReducesText | controller/internal/agent/budget.go:183-221 | shrinking keeps working on the same observation and halves its text down to 256 bytes |
| PromptBudget.ShrinkStepsLogarithmic | controller/internal/agent/budget.go:183-221 | the number of shrinks is logarithmic in the length |
| PromptBudget.ShrinkRoundsBounded | controller/internal/agent/budget.go:260-269 | the shrinking loop ends within that many rounds |
| PromptBudget.AtMostThreeDrops | controller/internal/agent/budget.go:250-259 | after task compaction the dropping loop runs at most three times |
| PromptBudget.RatioStaysBounded | controller/internal/agent/budget.go:295-302 | no sequence of samples moves the bytes-per-token ratio out of [2.0, 3.5] |
| PromptBudget.Agent.EstimatePrompt | controller/internal/agent/budget.go:61-93 | the loops add up the estimate of the specification |
| PromptBudget.Agent.PreparePrompt | controller/internal/agent/budget.go:236-293 | the graduated loop ends, succeeds exactly when the prompt fits, asks for the largest completion that then fits, and reports exactly the reductions it made |
| PromptExactly.OlderCutIsUnique | controller/internal/agent/budget.go:114-144 | cutting older tool text is told by the text: from the oldest round to the newest, tool replies other than stubs lose all but their first line, and that is cut to 512 bytes with its note |
| PromptExactly.FewestAreDropped | controller/internal/agent/budget.go:250-259 | the rounds dropped are the fewest, oldest first, without which the prompt fits, or all but the newest |
| PromptExactly.ShrinkIs | controller/internal/agent/budget.go:183-221 | a shrink halves the text of the last full observation, not below 256 bytes, with its note, keeps or drops its images as asked, and changes nothing else |
| PromptExactly.FewestAreShrunk | controller/internal/agent/budget.go:260-269 | the observation is shrunk until the prompt fits or its text is at most 256 bytes, and no further |
| PromptExactly.ResetIs | controller/internal/agent/agent.go:499-536 | the hard reset leaves the system prompt, the last user message of the history, the last full observation before the newest round if a marker there needs it, and the newest round |
| PromptExactly.ResetWithoutRounds | controller/internal/agent/agent.go:499-512 | without a round it leaves the system prompt and that user message |
| PromptExactly.PreparedIs | controller/internal/agent/budget.go:236-293 | the preparation is those in this order, and history is given up only if the prompt still does not fit |
| PromptExactly.EstimateAdds | controller/internal/agent/budget.go:61-93 | what each message adds to the estimate: its text, role, call and calls in bytes, and 12; and 256 tokens for each image |
| PromptExactly.TokensAre | controller/internal/agent/budget.go:37-43 | the tokens are the least number that covers the bytes at the ratio, and the fixed ones |
| PromptExactly.FitsIff | controller/internal/agent/budget.go:246-250 | a prompt fits exactly if 1024 tokens for the completion and 512 to spare fit beside it |
| PromptExactly.CalibratedIs | controller/internal/agent/budget.go:295-302 | the ratio moves a quarter of the way to the one observed, held between 2.0 and 3.5 |
| PromptBudget.Agent.CalibrateTokenEstimate | controller/internal/agent/budget.go:295-302 | the ratio moves a quarter of the way to the clamped observation and stays in bounds |
| PromptMarkers.CompactKeepsGrounded | controller/internal/agent/agent.go:428-497 | task compaction never leaves an unchanged marker without a full observation before it |
| PromptMarkers.DropGroundedIff | controller/internal/agent/budget.go:146-152 | dropping the oldest round does so exactly when the observation is in that round and the marker in a later one |
| PromptGrounding.ResetKeepsGrounded | controller/internal/agent/agent.go:499-536 | the hard reset keeps the observation every remaining marker refers to |
| PromptGrounding.DropWhileIs | controller/internal/agent/budget.go:250-259 | the drops together cut out the rounds before the k-th, where k is their number |
| PromptGrounding.ResetKinds | controller/internal/agent/agent.go:499-536 | what the hard reset leaves to be seen: a full observation exactly if the newest round holds it, or holds a marker and there is one; a marker only if the newest round holds one |
| PromptGrounding.PrepareKinds | controller/internal/agent/budget.go:236-293 | what a prepared prompt shows, for every list and budget: which of observation and marker outlive compaction, drops, shrinking and reset |
| PromptGrounding.PrepareGroundedIff | controller/internal/agent/budget.go:236-293 | for every sound list and budget, the prepared prompt has a full observation before every marker exactly unless a marker stays and every full observation compaction left, if any, goes with the rounds dropped |
| PromptOrphans.OrphanBudgetIff | controller/internal/agent/budget.go:236-293 | some context window leaves an orphaned marker exactly when the compacted prompt has a marker and no full observation, or has them in different rounds |
| PromptOrphans.DropCanOrphanMarker | controller/internal/agent/budget.go:236-293 | a sound prompt of two rounds, and a context window, for which a drop does it |
| PromptRun.SeesFullIff | controller/internal/agent/agent.go:260-411 | over every run of preparations, overflows, removed images and rounds: a full observation is there exactly if one was shown and the last one shown was not taken by a reduction |
| PromptRun.PromptGroundedIff | controller/internal/agent/agent.go:260-411 | over every such run, a prompt just prepared is grounded exactly unless it has a marker while none was ever shown, or the last one shown was taken and none shown since |
| PromptRun.PromptOrphanedIff | controller/internal/agent/budget.go:304-345 | and if no page itself reads like a marker, the second is the only way |
| PromptRun.AttemptTakesIff | controller/internal/agent/budget.go:236-293 | preparing takes the observation exactly if it goes with the rounds dropped, or history is given up and the newest round neither holds it nor a marker that asks for it |
| PromptRun.OverflowTakesIff | controller/internal/agent/agent.go:499-536 | an overflow takes it exactly if the newest round neither holds it nor a marker that asks for it |
| PromptRun.DropImageTakesIff | controller/internal/agent/budget.go:183-221 | removing the image takes it exactly if it is a screenshot |
| PromptRepeats.RepeatOrphans | controller/internal/agent/budget.go:304-325 | what was taken and is then observed again is sent as an orphan, for every budget |
| PromptRepeats.OverflowOrphans | controller/internal/agent/agent.go:285-292 | in any conversation, for any page: observed, taken by an overflow after a round that observes nothing, observed again, and sent as a marker alone |
| LifecycleModel.StepKeepsInv | controller/internal/notifications/lifecycle.go:85-286 | every durable action, crash, boot, planned restart and shutdown keeps the accounting of every run |
| LifecycleModel.EveryRunAccountedOnce | controller/internal/notifications/lifecycle.go:85-286 | once a controller is up, every earlier run has ended one way and exactly the unclean-startup, restart-complete and clean-shutdown notes that calls for exist, once each |
| LifecycleModel.NeverTwice | controller/internal/notifications/lifecycle.go:134-217 | at every moment no notification about a run exists twice or without cause, and the marker file is valid |
| LifecycleNotes.RestartShutdownOnce | controller/internal/notifications/lifecycle.go:241-286 | a restart-shutdown note about a run exists at most once, and once a controller is up exactly if the shutdown of that run promised one |
| LifecycleModel.PlannedCrashIsARestart | controller/internal/notifications/lifecycle.go:98-131 | in every run, a boot after a planned restart that crashed announces exactly one thing: a completed restart within 420 seconds of the plan, an unclean startup later |
| LifecycleModel.BootCompletes | controller/internal/notifications/lifecycle.go:85-132 | an uninterrupted boot is up within four durable actions |
| LifecycleDates.BootLeaves | controller/internal/notifications/lifecycle.go:85-217 | exactly which notes an uninterrupted boot leaves, with their kinds, runs and dates, for every marker it may find; and the running marker |
| LifecycleDates.ShutdownLeaves | controller/internal/notifications/lifecycle.go:241-286 | exactly which note and which marker an uninterrupted shutdown leaves, a restart being one planned at most 420 seconds before |
| LifecycleDates.PlanLeaves | controller/internal/notifications/lifecycle.go:219-239 | exactly which marker a planned restart leaves, for 120 seconds |
| LifecycleDates.UncleanIsDated | controller/internal/notifications/lifecycle.go:134-147 | an unclean startup is dated by the last marker, unless that lies more than 300 seconds in the future |
| LifecycleDates.StoredOnce | controller/internal/notifications/lifecycle.go:134-286 | in every run the notes counted are the notes stored, so that of each run at most one of each kind is |
| LifecycleService.Lifecycle.WriteMarker | controller/internal/notifications/lifecycle.go:378-410 | the file is replaced as a whole, and only by a valid marker |
| LifecycleService.Lifecycle.CreateExact | controller/internal/notifications/lifecycle.go:180-186 | creating the same note again changes nothing |
| LifecycleService.Lifecycle.UncleanRecovery | controller/internal/notifications/lifecycle.go:134-178 | promise, then create, a note dated by the last marker unless that lies more than five minutes ahead; cut short anywhere it is a run of the lifecycle |
| LifecycleService.Lifecycle.RestartFinished | controller/internal/notifications/lifecycle.go:188-217 | the same for the note that a restart is complete |
| LifecycleService.Lifecycle.Recover | controller/internal/notifications/lifecycle.go:85-132 | the recovery part of a boot is a run of the lifecycle |
| LifecycleService.Lifecycle.Startup | controller/internal/notifications/lifecycle.go:85-132 | a boot, cut short anywhere, is a run of the lifecycle; a complete one leaves a fresh running marker |
| LifecycleService.Lifecycle.PlanConfigRestart | controller/internal/notifications/lifecycle.go:219-239 | one durable action, refused unless the marker says running |
| LifecycleService.Lifecycle.Shutdown | controller/internal/notifications/lifecycle.go:241-286 | promise, create, mark clean; cut short anywhere it is a run of the lifecycle |
| NotificationStore.RunKeepsInv | controller/internal/notifications/service.go:27-65 | in every run the order has no duplicates, holds exactly the ids of the bodies, at most 500, and only retained ids are read |
| NotificationStore.RetainedIsStable | controller/internal/notifications/service.go:27-54 | while a notification is retained its body never changes and its first reading time stands |
| NotificationStore.RetainedKeepOrder | controller/internal/notifications/service.go:27-41 | two notifications that stay retained stay in the same order, whatever is created and read |
| NotificationStore.CreateEvictsOldest | controller/internal/notifications/service.go:27-41 | creating puts the note first, unread, and pushes out at most the oldest, the 500th; every other body and reading time stays |
| NotificationStore.CreateIsIdempotent | controller/internal/notifications/service.go:28-32 | creating the same note again, or another under its id, changes nothing, and says which it was |
| NotificationStore.SnapshotIsComplete | controller/internal/notifications/service.go:56-65 | a snapshot lists every retained notification once, in order |
| NotificationStore.UnreadIsWhatIsLeft | controller/internal/notifications/service.go:201-235 | the unread count is what is retained minus what is read |
| NotificationStore.MarkAllReadsEverything | controller/internal/notifications/service.go:47-54 | reading all leaves nothing unread and touches only what was unread |
| NotificationService.Service.CreateScript | controller/internal/notifications/service.go:27-41 | the commands of the script have the effect of the specification |
| NotificationService.Service.MarkOneScript | controller/internal/notifications/service.go:43-45 | -1, 0 or 1, and only an unread retained note changes, to the time given |
| NotificationService.Service.MarkAllScript | controller/internal/notifications/service.go:47-54 | the loop marks every unread note and counts them |
| NotificationService.Service.SnapshotScript | controller/internal/notifications/service.go:56-65 | the loop returns the snapshot of the specification |
| NotificationService.Service.HandlePage | controller/internal/notifications/service.go:421-482 | the page holds the rows after the cursor, as many as the limit and 48 KiB allow and at least one while there are any; the cursor, the done flag and the errors are exact |
| NotificationPaging.RunKeeps | controller/internal/notifications/service.go:421-482 | between pages, whatever others create and read, the ids returned stay a prefix of the list begun with |
| NotificationPaging.TraversalIsComplete | controller/internal/notifications/service.go:421-482 | when a client paging from an empty cursor stops, it has every notification of the first list that is still retained exactly once, newest first, and nothing else |
| NotificationPaging.TraversalEnds | controller/internal/notifications/service.go:421-482 | it stops after at most 501 requests |
| Ulid.EncodeIsValid | controller/internal/notifications/notifications.go:305-315 | every encoding is accepted by the validity check |
| Ulid.EncodeIsNumber | controller/internal/notifications/notifications.go:364-382 | read in Crockford's base 32 an identifier is the clock times 2 to the 80 plus the big-endian random bytes |
| Ulid.EncodeOrder | controller/internal/notifications/notifications.go:364-382 | a later pair of clock and random bytes has a greater encoding as a string |
| Ulid.EncodeIsInjective | controller/internal/notifications/notifications.go:364-382 | equal encodings come from equal pairs only |
| Ulid.IncrementIsLater | controller/internal/notifications/notifications.go:354-362 | unless it wraps round the incremented bytes come later, and it wraps round exactly from all ones |
| Ulid.IncrementEntropy | controller/internal/notifications/notifications.go:354-362 | the in-place loop adds one to the big-endian bytes |
| Ulid.EncodeUlid | controller/internal/notifications/notifications.go:364-382 | the bit loop computes the five-bit groups of the specification |
| Ulid.Generator.Next | controller/internal/notifications/notifications.go:330-352 | whatever the clock does, the identifier is valid and greater than the previous one; its random bytes are fresh when the clock has moved on, one more than before while it has not, and when they would wrap round it waits for the clock |
| Ulid.Issue | controller/internal/notifications/notifications.go:330-352 | any number of successive identifiers are strictly increasing |
| YamlText.QuoteRoundTrip | controller/internal/config/yaml.go:433-438 | decoding an encoded string gives it back (the JSON string codec the file format relies on) |
| YamlScalar.StripComment | controller/internal/config/yaml.go:92-128 | the line is cut before the first `#` outside quotation marks that starts it or follows a blank; without one it stays, or is refused if a quotation mark is open |
| YamlReading.QuotedIsNoComment | controller/internal/config/yaml.go:92-128 | whatever stands in single quotation marks, or in double ones with any escapes, closes again and holds no comment |
| YamlReading.CommentedLine | controller/internal/config/yaml.go:54-74 | a line whose quotation marks close, with a comment after it, reads as the line without it |
| YamlReading.OpenQuoteFails | controller/internal/config/yaml.go:122-126 | a quotation mark of either kind left open is an error |
| YamlReading.LineIs | controller/internal/config/yaml.go:54-74 | a line is its indentation, which must be even, and its text without the blanks at the end, unless it has one of the refused forms |
| YamlReading.BlankLineIs | controller/internal/config/yaml.go:54-63 | a line of blanks is no line |
| YamlReading.SingleQuoted | controller/internal/config/yaml.go:269-274 | between single quotation marks any string is read, a quotation mark written twice |
| YamlReading.UnclosedSingleQuote | controller/internal/config/yaml.go:269-272 | an opening single quotation mark without its partner is refused |
| YamlReading.DoubleQuoted | controller/internal/config/yaml.go:262-268 | however the characters of a double-quoted string are written, themselves, short escapes, codes or pairs of codes, they are read |
| YamlReading.IntegerIff | controller/internal/config/yaml.go:34 | integers are decimal numerals without leading zeros, perhaps with a sign |
| YamlReading.IntegerIsRead | controller/internal/config/yaml.go:275-281 | and are read as themselves, or refused beyond 64 bits |
| YamlReading.DecimalIff | controller/internal/config/yaml.go:35 | decimals are such a numeral, a point and at least one digit |
| YamlReading.DecimalIsRead | controller/internal/config/yaml.go:282-288 | and are kept as they are written, or refused when too large for a double |
| YamlReading.PlainIsRead | controller/internal/config/yaml.go:246-294 | what is neither quoted nor a number: the five words and signs, brackets, which are refused, what could be structure, which is refused, and plain text |
| YamlReadBack.ScalarReadsBack | controller/internal/config/yaml.go:246-294 | a scalar written on a line is accepted and read back exactly when a test on the string alone says so |
| YamlReadBack.PlainScalar | controller/internal/config/yaml.go:246-294 | a string that is plain-safe reads as itself exactly when its first characters mean nothing else |
| YamlReadBack.ForbiddenLine | controller/internal/config/yaml.go:130-141 | exactly when a written line is refused as unsupported syntax |
| YamlParser.Parser.ParseBlock | controller/internal/config/yaml.go:143-155 | the parser object reads a block as the specification does |
| YamlParser.Parser.ParseMapping | controller/internal/config/yaml.go:157-207 | the same for a mapping, with its errors |
| YamlParser.Parser.ParseSequence | controller/internal/config/yaml.go:209-244 | the same for a sequence, with its errors |
| YamlParser.ParseYaml | controller/internal/config/yaml.go:38-90 | the loop over the lines and the parser give the result of the specification |
| YamlGrammar.BlockIff | controller/internal/config/yaml.go:143-244 | a block is read, and read as a value, exactly if it is the text of a tree of the grammar (even indentation, valid and distinct keys, no mixing, an entry having either a scalar or a block under it) that means that value, at any depth |
| YamlGrammar.FileIff | controller/internal/config/yaml.go:38-90 | a file is read as an object exactly if it is within 1 MiB, has no tab and no bare carriage return, and its lines are such a mapping |
| YamlGrammar.LineEndsAreEqual | controller/internal/config/yaml.go:44-48 | both line ends mean the same |
| YamlGrammar.MarkIsDropped | controller/internal/config/yaml.go:45 | a byte order mark in front means nothing |
| YamlGrammar.BareReturnStays | controller/internal/config/yaml.go:46-49 | a carriage return on its own makes the file unreadable |
| YamlGrammar.BytesAdd | controller/internal/config/yaml.go:39-41 | the size is counted in bytes of UTF-8 |
| YamlEmitter.AscendingIsUnique | controller/internal/config/yaml.go:395-407 | there is only one sorted order of the keys, whatever order a map yields them in |
| YamlEmitter.SortByOrder | controller/internal/config/yaml.go:409-416 | the in-place insertion sort sorts by order and key and permutes |
| YamlRoundTrip.ItemIsReadBack | controller/internal/config/yaml.go:305-335 | the lines of one property lex or are refused as its scalars are, and are parsed back into its value |
| YamlRoundTrip.MappingIsRead | controller/internal/config/yaml.go:305-335 | the same for the properties of an object at any depth |
| YamlTheorems.EntryIsReadable | controller/internal/config/yaml.go:305-335 | a property is read as itself exactly when every string in it is readable |
| YamlTheorems.RoundTrip | controller/internal/config/yaml.go:296-335 | parsing the emission of a schema-shaped tree gives the tree back exactly when it is not empty, within 1 MiB, and every string in it is readable; then it is emitted as the same text |
| YamlTheorems.PlainSafeIsNotEnough | controller/internal/config/yaml.go:445-453 | two concrete strings that are plain-safe and are not read back |
| YamlWriter.OrderedPropertyKeys | controller/internal/config/yaml.go:395-407 | the keys in the one emission order |
| YamlWriting.WrittenInOrder | controller/internal/config/yaml.go:305-335 | each property stands under its comment lines, and one with a smaller order number, or the same and a smaller key, comes first |
| YamlWriting.SecretsAreQuoted | controller/internal/config/yaml.go:418-443 | a secret string is always written as JSON, another only if it is not plain-safe |
| YamlWriter.Writer.WriteObject | controller/internal/config/yaml.go:305-335 | the builder receives the lines of the specification in the sorted order of the keys |
| YamlWriter.EmitYaml | controller/internal/config/yaml.go:296-303 | the emitted text is that of the specification |
| WebSocketFrames.MaskedTwice | controller/internal/agent/cdp.go:257-259 | masking twice is masking not at all |
| WebSocketBytes.XorDiffers | controller/internal/agent/cdp.go:257-259 | a masked byte has exactly the bits in which the byte and the mask byte differ |
| WebSocketBytes.ClientFrameIs | controller/internal/agent/cdp.go:237-267 | the bytes on the wire: 128 and the opcode, 128 and the length in seven bits or after 126 or 127 in two or eight bytes, as few as will do, the mask, and byte i of the payload masked with byte i mod 4 |
| WebSocketBytes.ServerFrameIs | controller/internal/ws/ws.go:132-168 | the same for a server frame, without a mask |
| WebSocketBytes.ClientFrameTaken | controller/internal/ws/ws.go:211-247 | how the server takes any bytes: refused with 1002 or 1009, or the payload unmasked byte by byte, with what is left |
| WebSocketBytes.ServerFrameTaken | controller/internal/agent/cdp.go:269-299 | how the client takes any bytes |
| WebSocketBytes.FrameIsServed | controller/internal/ws/ws.go:249-268 | what each opcode does, and the bytes of the pong and close frames |
| WebSocketFrames.LengthIsRead | controller/internal/ws/ws.go:190-207 | each length is read back from the bytes written for it |
| WebSocketFrames.ClientFrameIsRead | controller/internal/agent/cdp.go:237-267 | the server reads a client frame as it was meant exactly when it is within 65536 bytes, or 125 for a control frame |
| WebSocketFrames.ServerFrameIsRead | controller/internal/ws/ws.go:132-168 | the client reads a server frame as it was sent exactly when it is at most 16 MiB |
| WebSocketFrames.FramesAreDelivered | controller/internal/ws/ws.go:211-268 | any sequence of client frames is delivered unchanged and in order, and every ping is answered with its own payload |
| WebSocketFrames.TooLongIsRefused | controller/internal/ws/ws.go:229-232 | a longer frame closes the connection with code 1009 and delivers nothing |
| WebSocketClient.MessageIsReassembled | controller/internal/agent/cdp.go:88-131 | any fragmentation with pings and pongs in between reassembles the original message |
| WebSocketClient.FrameIsReceived | controller/internal/agent/cdp.go:88-131 | what the client does with each opcode, up to 16 MiB a message and 125 bytes a pong |
| WebSocketClient.CallReturnsFirstAnswer | controller/internal/agent/cdp.go:88-131 | the call returns the first text message that answers it, passing over every other message, and answers every ping |
| WebSocketClient.ServerTextIsLegal | controller/internal/ws/ws.go:171-173 | what the server writes is such a message |
| WebSocketService.MaskInPlace | controller/internal/ws/ws.go:245-247 | the in-place loop masks byte i of the payload with byte i mod 4 of the mask, bit by bit |
| WebSocketService.Conn.WriteFrame | controller/internal/ws/ws.go:132-168 | the writes add up to the bytes of a server frame |
| WebSocketService.Conn.ReadLoop | controller/internal/ws/ws.go:211-268 | the loop delivers, answers and closes as the specification does |
| WebSocketService.WriteMaskedFrame | controller/internal/agent/cdp.go:237-267 | the bytes written are those of a client frame |
| WebSocketService.ReadFrameFromServer | controller/internal/agent/cdp.go:271-299 | one frame is taken as its bytes say, or refused |
| WebSocketService.ReceiveAnswer | controller/internal/agent/cdp.go:86-131 | the loop with its message buffer computes the result of the specification |
| Metrics.Mean | controller/internal/metrics/metrics.go:91-148 | the loops compute the averages, the truncated integer averages and the sums of the specification |
| MetricsMeans.MeanIs | controller/internal/metrics/metrics.go:91-148 | each gauge, core and process field of an aggregate, times the number of samples, is the sum of that same field over the samples (cut off for whole numbers), each counter the sum of that counter, and its time the last |
| Metrics.WindowAt | controller/internal/metrics/metrics.go:158-172 | the k-th aggregate is the mean of the k-th full window of the raw stream, and what is pending follows the last one |
| Metrics.CountersAreConserved | controller/internal/metrics/metrics.go:158-172 | the counters of the aggregates, trimmed ones included, and of what is pending add up to those of the raw stream |
| Metrics.Store.Add | controller/internal/metrics/metrics.go:158-172 | each of the four tiers stays the last 1800, 1440, 2016 or 2880 samples of what was loaded and then rolled up by 1, 15, 150 or 450, with its leftover pending |
| Metrics.Store.Load | controller/internal/metrics/metrics.go:197-222 | each tier starts from at most its retention of what the file held |
| Metrics.Store.Query | controller/internal/metrics/metrics.go:175-194 | the samples from the first that is not older than the cutoff |
| ChartData.MergeGroup | controller/web/static/js/chart-data.js:36-68 | the loops over keys and samples compute the merged sample of the specification |
| ChartData.BarIs | controller/web/static/js/chart-data.js:36-68 | a bar has the time of its first sample and the fields of all: a counter is the sum, another number the average, a list the averages position by position |
| ChartData.Downsample | controller/web/static/js/chart-data.js:18-29 | groups of the rounded-up size, or the samples as they are |
| ChartData.BarSpan | controller/web/static/js/chart-data.js:22-27 | every bar but the last covers exactly that many samples |
| ChartData.DownsampleIsBounded | controller/web/static/js/chart-data.js:18-29 | as few samples to a bar as will do: at most the permitted number of bars, whose counters are those of the samples |
| Chunk.PreferredBoundary | controller/internal/telegram/chunk.go:44-66 | the latest blank line, else line break, else white space, at or after the floor |
| Chunk.ChunkText | controller/internal/telegram/chunk.go:9-42 | the chunks are cut one after another at the preferred boundary, and the loop ends |
| Chunk.CutIsPreferred | controller/internal/telegram/chunk.go:44-66 | between 3072 and 4096 units a cut is after the last blank line, without one after the last line break, without one after the last white space, and without any after as much as fits |
| Chunk.CutIsWithinLimits | controller/internal/telegram/chunk.go:15-40 | a cut lies between 3072 and 4096 units, and at 4095 or more when there is no boundary |
| Chunk.ChunksAreFaithful | controller/internal/telegram/chunk.go:9-42 | the chunks joined are the text, none is empty or above 4096 units, all but the last have 3072 |
| Chunk.MessagesAreFew | controller/internal/telegram/chunk.go:9-42 | so their number is bounded by the length |
| Chunk.ChunksAreUnique | controller/internal/telegram/chunk.go:9-42 | and they are determined by the text |
| Selector.MarkDays | controller/internal/jobs/selector.go:67-90 | the loop over the day names marks the array as the specification does |
| Selector.DaysAreTheNamed | controller/internal/jobs/selector.go:76-89 | exactly the named days are set, each named once |
| SelectorMeaning.DaysIff | controller/internal/jobs/selector.go:67-90 | days are read exactly if they are one of the three words or distinct names, and then exactly the days of that word or those names are set |
| SelectorMeaning.MatchesIff | controller/internal/jobs/selector.go:93-101 | a selector applies on its days between the two hours of its bucket |
| SelectorMeaning.ParseIs | controller/internal/jobs/selector.go:36-66 | days and a bucket mean those days within those hours; either may be left out; anything else is refused |
| SelectorMeaning.SpaceIsIgnored | controller/internal/jobs/selector.go:33-35 | how much white space stands between words or around them means nothing |
| SelectorMeaning.CaseIsIgnored | controller/internal/jobs/selector.go:33-35 | nor do capitals |
| Selector.ParsedIsProper | controller/internal/jobs/selector.go:35-91 | what parses names at least one day and a known bucket |
| SelectorTime.BucketWindow | controller/internal/jobs/selector.go:104-120 | the loop finds the first day whose window is not over, and always finds one for a selector that parses |
| SelectorTime.WindowIsEarliest | controller/internal/jobs/selector.go:93-120 | that window ends after the time, starts within seven days, is the earliest, and contains the time exactly when the selector matches |
| ProjectSchedule.Service.Source | controller/internal/projects/projects.go:330-363 | one envelope for exactly each project that is due, in order, each marked with its token before its job, and nothing else changed |
| ProjectSchedule.RunKeeps | controller/internal/projects/projects.go:330-363 | in every run, between two marks of the same token there is a mark of another |
| SelectorNormal.NormalIsStable | controller/internal/projects/projects.go:188-194 | the stored form of a selector is its own normal form, and parses as the text that was validated |
| ProjectSchedule.AtMostOncePerBucket | controller/internal/projects/projects.go:330-363 | with ticks that do not go back and selectors of which no two clash (share a day under different buckets, one of them the whole day), at most one scheduled job per date and bucket, with updates, runs and crashes in between |
| ProjectSchedule.OncePerBucketIff | controller/internal/projects/projects.go:330-363 | exactly then: if two of the selectors clash, some run enqueues one token twice |
| ProjectSchedule.ExactlyOncePerBucket | controller/internal/projects/projects.go:330-363 | and exactly one job if a tick finds the selector applying and nothing is lost between saving and enqueuing |
| ProjectSchedule.ChangingBackRepeats | controller/internal/projects/projects.go:188-194 | changing to a selector that applies at the time under another bucket, and back, enqueues the first token twice |

## Left out

- Store command failures with the process still running, undecodable envelopes and records, and a corrupt stored offset: the fault model is that a command that is lost ends the process.
- `sweep`: acquiring to acknowledging is taken to fit inside the visibility timeout.
- The Telegram server: it returns a prefix of the sorted updates at or above the offset asked for.
- Clocks, randomness and the results of executors are parameters; the lifecycle reads a clock that does not go back, once per operation.
- `Startup` returning an error with the controller going on, and a rollover of all 500 retained notifications between a marker write and its replay.
- Rows of the notification snapshot that do not decode: everything stored was validated by the same code; the encoded size of a page is a parameter.
- An evicted notification id that is created again while a client is paging.
- Failing reads of random bytes: a partly overwritten state would break the order of identifiers; a clock beyond 48 bits.
- JSON encodings except the string codec, SHA-1, base64, HTTP and TCP; the decoding of the reply in `call` is the parameter `accept`.
- Floating point: ratios, gauges and bars are reals, without rounding.  Decimal scalars in the configuration file keep their literal text, and trees holding them are not emitted.
- Source locations kept by the configuration parser, the wording of its errors, and the wrapping of comment text: a comment is given as its wrapped lines.
- Invalid UTF-8 everywhere; letters outside ASCII when a selector is put in lower case; time zones and daylight saving.
- Chart fields that are a number in one sample and a list in another.
- Prompts without a user message in the history, and ordinary tool text that equals a placeholder.  What the model streams and answers, what tools return, and the test for blank text are arbitrary; events, activity records and token totals of a task are left out, and the hash of an observation is taken to be injective.
- `digestToYAML` and `SplitSentences`, schema documentation, restart classes, legacy environment names and pointer trajectories.
- IngressService.Poller.Process: classifies an update by its outcome and leaves the wording of replies and events out, because they do not touch the ingress records.
