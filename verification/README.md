# A model of DBOS durable execution

DBOS keeps the state of workflows in a few database tables and promises that a workflow survives
crashes, lost commit acknowledgements, retries and many workers. This project models the code that
makes those promises, and proves them.

`dafny verify dfyconfig.toml` checks everything.

## How it is organised

Tables are maps from primary key to row (`SystemTables`). One `engine.begin()` block is one atomic
step. The effect of a transaction is a function (`OperationLog`, `WorkflowRows`, `Fork`), and the
classes `SystemDatabase`, `AppDatabase`, `ThreadSafeConditionDict` and `Croniter` have the methods that change
their fields step by step, each proved against those functions. The properties are about runs of
state machines whose steps are these transactions, crashes and lost acknowledgements.

Methods that change the tables are proved twice. Their contracts name the function of the specification that is their
effect, which is the bridge to the state machines, and they say field by field what is in the tables
afterwards, in predicates that do not use that function (`PollLaws.FairPoll`, `GarbageCollection.CollectedUpTo`,
`StreamReader.IsReading`, `Lifecycle.CreatedAs`, `Transactions.Tells`, `ExpandLaws.NamesTime`).

| modules | what they are about |
|---|---|
| `Kernel`, `Context`, `Replay`, `Past`, `Messages`, `MessageOrder`, `Outputs`, `Events`, `StreamReader`, `Cancellation`, `StatusSteps`, `ClientSend` | checkpoint and replay of deterministic workflows; messages, events and streams across crashes |
| `Transactions`, `AppDatabase`, `Invocations` | steps with retries, and transactional steps recorded in two databases |
| `WorkflowRows`, `Lifecycle`, `QueueLimits`, `Dequeue`, `PollLaws`, `Recovery` | the life cycle of a workflow's row, queues with their limits, recovery |
| `Fork`, `Children`, `GarbageCollection` | operations that transform or remove whole histories |
| `WaitNotify` | threads waiting for a message or event, and the listener that wakes them |
| `Calendar`, `Cron`, `CronExact`, `CronUnion`, `CronIterator`, `Expand`, `ExpandLaws`, `Schedule`, `Backfill` | what a cron expression means, the search for the next scheduled time, and backfilling |

## What is assumed

- Each transaction is atomic and isolated. SQLite gives this with IMMEDIATE transactions
  (`dbos/_sys_db_sqlite.py:40-44`); for Postgres it is an assumption.
- A workflow is deterministic: its next operation is a function of the results it has been shown.
- One execution of a workflow is live at a time (`Kernel.Begin`). The code does not enforce this:
  recording a step that already has a record is silently dropped (`dbos/_sys_db.py:1345-1371`), so
  two live executions could see different results of one step. `Transactions` and `WaitNotify` have no such
  assumption.
- Message ids are never reused (`Kernel.Unused`). That a message is later than those waiting beside it
  (`MessageOrder.Timely`) is needed for the order of messages only, not for exactly-once delivery.
- A transaction record is not older than its workflow's row, and the clock of the system database,
  which stamps new rows, does not go back (`GarbageCollection.Step`). Cutoffs may be any.
- Clocks, new ids, the outcome of step bodies and of database calls are parameters of the transitions
  and methods that need them.

## Where the code does not do what one would expect

- A `recv` that times out records a NULL output, and its replay raises instead of returning nothing
  (`dbos/_sys_db.py:1614-1621`). `Kernel.ReplayAgrees` says that this is the only result whose replay differs. A `send`
  to a workflow that does not exist raises and records nothing. A workflow that was shown such a result is in `unlogged`.
  What was recorded before still replays (`Past.RecordedPastIsReplayed`); what comes after may not
  (`Past.TimedOutReceiveDiverges`).
- `update_workflow_outcome` has no guard, so SUCCESS and ERROR are closed as a pair, not each
  (`Lifecycle.CompletedIsFinal`).
- A client's send is named by joining destination and idempotency key with `-`, which does not keep them apart:
  `a-b` with key `c` and `a` with key `b-c` are one name, and the second message is dropped
  (`ClientSend.StoredIffNamesDiffer`).
- The cap of 100 workflows for one poll is replaced, not combined, when `worker_concurrency` is set
  (`dbos/_sys_db.py:2148-2181`, `WorkflowRows.Slots`).
- Garbage collection removes cancelled and dead-lettered workflows too, not only completed ones
  (`dbos/_sys_db.py:2588-2604`).
- With a cutoff later than the clock, collecting garbage takes the transaction records of workflows
  started between its two deletions (`GarbageCollection.LosesARecord`). Records are safe if and only if the cutoff was not later than the
  clock when the system database was cleaned (`GarbageCollection.SafeIffCutoffInPast`); nothing in the code checks this.
- The forward jump to the next listed day of the month goes past days in March: with days 1 and 30, the search from
  mid-February lands on 2 March (`dbos/_croniter.py:728-739`). `CronExact.SearchIsRightIffDaysSafe` gives the exact condition
  for one search. In a union with weekdays, a listed weekday in time can hide the loss; `CronUnion.NextIsRightIff` gives the
  exact condition for that.
- When both day fields are restricted and one of them has no date (30 February), the iterator fails
  although the other has (`CronUnion.NextFailsIff`, `CronUnion.ThirtiethOfFebruary`).
- Six-field expressions keep Sunday as 7, where it matches no day (`CronUnion.SundayAsSeven`), and a list of seven
  weekdays that has both 0 and 7 is taken for the whole week (`Expand.ExpandField`).

## Model

| member | source | states |
|---|---|---|
| Replay.DurableReplay | dbos/_core.py:1495-1569 | In every reachable state, whatever crashed and recovered, for a workflow shown only recorded results: its checkpoints are one trace of its code, the live execution is at a prefix of it, `DBOSUnexpectedStepError` cannot come next, and a stored outcome is the one the code computes from the checkpointed results |
| Past.RecordedPastIsReplayed | dbos/_core.py:1495-1569 | For every workflow, also one later shown an unrecorded result: the trace recorded before that stays recorded for good, and every later execution replays it result by result, running no body, before it does anything else |
| Past.RunKeepsPast | dbos/_sys_db.py:1311-1371 | The inductive invariant behind it, kept by every step of every run |
| Past.TimedOutReceiveDiverges | dbos/_sys_db.py:1610-1621 | A run in which a timed-out receive is replayed, raises, and the code meets the record of another step: why replay after an unrecorded result cannot be promised |
| Replay.TraceUnique | dbos/_context.py:150-165 | Checkpoints determine the trace: function ids are allocated by position, so two traces that fit one log are equal |
| Replay.CheckpointedNeverRunsAgain | dbos/_core.py:1526-1557 | Once a function id has its checkpoint, in no later state of any run is a step body or a receive running under it |
| Replay.NeverUnexpected | dbos/_sys_db.py:1509-1516 | While everything shown to a workflow is checkpointed, neither an operation nor the timeout of a receive finds another operation's name |
| Replay.RunKeepsOps | dbos/_sys_db.py:1345-1371 | First writer wins over whole runs: a checkpoint is never changed or removed |
| Replay.LookupInLog | dbos/_sys_db.py:1455-1525 | In a trace, the lookup before operation `i` finds its recorded result, and the one after the last finds nothing |
| Replay.RunKeepsKernelInv | dbos/_core.py:1495-1569 | The inductive invariant of the kernel: log, trace, context and outcome agree for every workflow not shown an unrecorded result |
| Kernel.ReplayAgrees | dbos/_sys_db.py:1610-1621 | Replaying a checkpoint hands back what was recorded, except exactly when the result was a receive's timeout |
| StatusSteps.EveryEventIsAStatusStep | dbos/_sys_db.py:683-734 | The kernel's view of the status table is sound: each life-cycle transaction from outside leaves completed rows, outputs and errors as they are |
| Messages.StoredOrDeliveredOnce | dbos/_sys_db.py:1659-1707 | Whatever timestamps messages get, ties included: every message ever sent is either still stored and in no receive's checkpoint, or no longer stored and in exactly one, across crashes and replays of both sides |
| Messages.TraceSendsAndReceivesOnce | dbos/_sys_db.py:1537-1593 | Each send of a trace put exactly one message in its mailbox, and what a trace received on a topic are, in order, the messages taken from it |
| MessageOrder.ReceivedIsPrefixOfSent | dbos/_sys_db.py:1661-1682 | With timestamps in commit order, what a trace received on a topic is a prefix, in order, of what was sent there |
| MessageOrder.OldestIsNext | dbos/_sys_db.py:1661-1682 | The message the DELETE picks by least timestamp is then the first in commit order not yet received |
| MessageOrder.RunKeepsOrder | dbos/_sys_db.py:1537-1707 | The inductive invariant of the order of every mailbox |
| Messages.RunKeepsMessagesInv | dbos/_sys_db.py:1537-1707 | The inductive invariant of mailboxes and of the traces' sends and receives |
| Outputs.StreamsExactlyOnce | dbos/_sys_db.py:2464-2526 | Offsets of every stream are 0 to n-1; each workflow-level write of a trace has exactly one row across replays, and rows stand in the order of the operations that wrote them |
| Outputs.AppendKeepsContiguous | dbos/_sys_db.py:2395-2426 | Inserting at the greatest offset plus one leaves every stream without gaps |
| Outputs.RunKeepsOutputsInv | dbos/_sys_db.py:1835-1952 | In every reachable state the current value of an event is the one with the greatest function id in its history, and all rows belong to operations of the trace |
| Events.EventsHoldWhatWasSet | dbos/_sys_db.py:1835-1902 | In every reachable state, for each event set by a trace, the history row under that operation's function id holds exactly the value set, across crashes and replays; and when no later operation and no step set the key, that value is the current event |
| Events.RunKeepsEvents | dbos/_sys_db.py:1835-1952 | The inductive invariant behind it: every set has its history row, and every history row was written by a set of its value or by a step |
| Cancellation.CancelledStaysIdle | dbos/_sys_db.py:1488-1492 | Once a workflow is cancelled with no body of it under way, then as long as it stays cancelled no body starts, it takes no message and nothing is checkpointed for it, however often it is recovered |
| Cancellation.NothingStarts | dbos/_sys_db.py:1488-1492 | A body or receive under way while the workflow is cancelled is one that was under way when it was cancelled |
| StreamReader.ReadStream | dbos/_client.py:607-623 | The loop asks all the queries, in order: each reads the next offset or, after a miss, the workflow's status, and it stops early only on the sentinel or on a workflow that is gone or inactive. It yields the stream's values in order from offset 0, never the sentinel; ending on the sentinel nothing before it is missing |
| StreamReader.ClosedStreamIsRead | dbos/_client.py:607-623 | Progress: a reader that finds a closed stream of `n` values and asks more than `n` times yields exactly these values and ends on the sentinel |
| StreamReader.LostInBetween | dbos/_client.py:607-623 | When a reader ends on the workflow's status, nothing was missing at its last read, and something is missing at the status query if and only if the next offset was written in between |
| StreamReader.RunIsGrowing | dbos/_sys_db.py:2395-2426 | Whatever moments of a run a reader queries, it sees a stream that only grows and has no gaps |
| ClientSend.ClientSend | dbos/_client.py:294-347 | A client's send: the row of its sender workflow, then message and checkpoint together, each step as the transactions specify |
| ClientSend.FirstSendIsStored | dbos/_client.py:331-347 | The first send under a name succeeds exactly if its message is stored; otherwise no message and no checkpoint is left |
| ClientSend.SecondSendStoresNothing | dbos/_client.py:294-347 | A second send with the same destination and key succeeds and stores nothing |
| ClientSend.StoredIffNamesDiffer | dbos/_client.py:302-302 | Of two sends that would each be stored alone, the second is stored if and only if the joined names differ |
| ClientSend.NamesCollide | dbos/_client.py:302-302 | Two destinations and keys with one name |
| Context.DBOSContext.SnapshotStepCtx | dbos/_context.py:150-165 | Each operation takes the next function id, and one more when it reserves a timeout |
| Context.AllocateIds | dbos/_context.py:150-165 | Every execution of a trace hands its operations the ids under which the kernel keeps their checkpoints |
| Context.IdsAreApart | dbos/_context.py:150-165 | The ids of different operations, timeouts included, never meet |
| Fork.ForkIsThePast | dbos/_sys_db.py:745-907 | Fork fidelity: a fork at operation `start`, taken at any later moment and whatever the original was shown since, has exactly the checkpoints, events, event history and streams the original had when `start` was about to begin, on a fresh row: enqueued on the internal queue for the same function and inputs, with the application version asked for, created now, with no attempts, owner, executor or result |
| Fork.ForkReplaysToStart | dbos/_sys_db.py:1455-1525 | The same code run on the fork replays every operation before `start` with the same result and finds no checkpoint at `start` |
| Fork.CopiesBelow | dbos/_sys_db.py:778-905 | The four INSERT ... SELECT statements copy exactly what lies below `start`, and of each event its value as of then |
| Fork.RunBelow | dbos/_sys_db.py:1311-1371 | Once a trace is recorded, no later step of any workflow changes anything below the function id after it, and the trace stays recorded |
| Fork.RunKeepsForeignKeys | dbos/_schemas/system_database.py:95-196 | A workflow without a status row has no rows in any other table, in every reachable state |
| Transactions.BodyCommitsOnce | dbos/_core.py:1229-1404 | With any number of executors, crashes and lost acknowledgements, a transaction body commits at most once, exactly when its output row is there, never beside an error row; and a record in the system database that was not copied has the name, output and error of the application row |
| Transactions.FinishedAgree | dbos/_app_db.py:150-181 | All invocations of one function id that ever finish have the same result |
| Transactions.FinishedIsReplayed | dbos/_core.py:1229-1250 | Once an invocation has finished with a result, then or at any later time, whoever invokes that function id under that name on a workflow not cancelled finds the record and is handed that result |
| Transactions.CommittedIsReturned | dbos/_core.py:1341-1383 | A body whose commit is acknowledged and recorded finishes the invocation with what it returned, under its name |
| Transactions.RunKeepsInv | dbos/_core.py:1267-1396 | The inductive invariant of the two-database protocol |
| Invocations.InvokeTx | dbos/_core.py:1229-1404 | The retry loop of a transaction, for any database answers: a recorded result is handed back and nothing changes; a body that returns and is acknowledged has its value handed back; a result returned is in the system database under the name when the databases agreed before; and the run is a run of the protocol |
| Invocations.InvokeTxTwice | dbos/_core.py:1229-1404 | When a call returned a result, a second call of the same transaction, with any rounds, returns the same unless the workflow was cancelled in between |
| Invocations.OneRound | dbos/_core.py:1276-1354 | One pass of the loop: look for the application record, otherwise run, commit and record |
| Invocations.CommitBody | dbos/_core.py:1341-1353 | The commit: effects and record together, and where each of the three acknowledgements leaves the invocation |
| Invocations.FinishCommit | dbos/_core.py:1354-1397 | What follows each acknowledgement: recording in the system database, another round, or the error path |
| Invocations.RecordError | dbos/_core.py:1384-1397 | An error is recorded in both databases unless a record is in the way |
| Invocations.InvocationCommitsOnce | dbos/_core.py:1276-1354 | Through one whole invocation the effects of the body grow by at most one, and only when there was no record before and there is an output row after |
| Invocations.InvokeStep | dbos/_core.py:1495-1569 | A checkpointed step body runs zero times and its recorded result is handed back; otherwise the body runs, what the caller is told is recorded, and a step that failed every attempt raises the error made from all of them |
| Invocations.Retry | dbos/_outcome.py:127-145 | The body runs until it returns, at most `attempts` times; after the last failure the error raised is made from all the errors in order |
| Invocations.RecordedStepIsReplayed | dbos/_core.py:1526-1557 | Invoking a recorded step again hands back the recorded result |
| AppDatabase.AppDatabase.CheckTransactionExecution | dbos/_app_db.py:150-181 | Finds the record, or refuses one left by another function |
| AppDatabase.AppDatabase.RecordTransactionOutput | dbos/_app_db.py:107-128 | The body's effects and its output row commit together; a second record is refused and nothing changes |
| AppDatabase.AppDatabase.RecordTransactionError | dbos/_app_db.py:130-148 | An error row goes in only where there is no record, and commits no effects |
| AppDatabase.AppDatabase.GarbageCollect | dbos/_app_db.py:183-199 | Deletes exactly the records before the cutoff whose workflow was not reported |
| AppDatabase.AppDatabase.DeleteTransactionOutputs | dbos/_app_db.py:201-210 | Deletes exactly the records of the given workflows |
| AppDatabase.GarbageCollect | dbos/_workflow_commands.py:56-72 | Over both databases up to the effective cutoff: a workflow goes exactly when it is older and neither enqueued nor pending, and none of its transaction records before the cutoff is left; a workflow still there keeps every record not older than itself; without a cutoff, or refused, nothing changes |
| AppDatabase.DeleteWorkflow | dbos/_workflow_commands.py:43-53 | Removes from both databases exactly the workflow and, if asked, everything reachable by child edges, with all that hangs on them; every other row stays as it was |
| Lifecycle.NextKeepsRows | dbos/_sys_db.py:498-734 | Every transaction keeps the row invariant: enqueued rows have a queue and no start stamp, cancelled and dead-lettered ones no queue, deduplication id or stamp, a deduplication id belongs to an active row and is unique in its queue |
| Lifecycle.RunKeepsRows | dbos/_sys_db.py:498-734 | The same in every reachable state |
| Lifecycle.CompletedIsFinal | dbos/_sys_db.py:660-734 | No transaction takes a workflow out of SUCCESS or ERROR, and only another outcome replaces its result |
| Lifecycle.OneStarter | dbos/_sys_db.py:514-577 | All ordinary starts that are ever told to execute a workflow carry the one id stored in its row |
| Lifecycle.OthersDoNotStart | dbos/_sys_db.py:649-658 | An ordinary start of an existing workflow with another id is not told to execute |
| Lifecycle.OwnerStays | dbos/_sys_db.py:514-577 | The stored id never changes while the row exists |
| Lifecycle.RetryIsIdempotent | dbos/_sys_db.py:2360-2385 | A start retried after its commit with the same id is told the same and changes nothing |
| Lifecycle.DuplicateRefusedIff | dbos/_sys_db.py:583-597 | A start is refused as a duplicate exactly when its workflow is new and an active one holds the deduplication id on the queue |
| Lifecycle.DeadlineIsKept | dbos/_sys_db.py:2259-2276 | A timeout becomes a deadline at the first dequeue, and only a resume changes a deadline once set |
| Lifecycle.BoundedRecovery | dbos/_sys_db.py:515-525 | Between resumes a workflow is handed to execution at most `max_recovery_attempts` + 1 times, whatever else happens to it |
| Lifecycle.LastAttemptDeadLetters | dbos/_sys_db.py:617-647 | A forced start is handed over exactly while attempts are left; the next one dead-letters a pending workflow and takes it off its queue |
| Lifecycle.StartAnswers | dbos/_sys_db.py:498-658 | A start that succeeds makes the row that was asked for, or counts an attempt on the one that is there and takes it over as executor, changes no other row, and says to execute exactly for a recovery, a dequeue or the stored id |
| Lifecycle.ConflictIff | dbos/_sys_db.py:603-615 | A start is refused as conflicting exactly when the workflow exists as another function, class or instance, and then nothing changes |
| Lifecycle.ResumedRunsAgain | dbos/_sys_db.py:710-734 | A resumed workflow, a dead-lettered one too, is handed to execution again once it is dequeued |
| Recovery.RecoverWorkflow | dbos/_recovery.py:16-23 | A queued workflow goes back to its queue; another is failed if its inputs cannot be read, left if its function is not registered, restarted, or dead-lettered when its attempts are used up |
| Recovery.RecoverPendingWorkflows | dbos/_recovery.py:48-70 | Exactly the pending workflows of that executor and application version are recovered, each once, and no other row changes; none is forgotten: it is back on its queue, failed with its error, pending here with one more attempt used, or dead-lettered when it had none left; those started are those still pending |
| QueueLimits.RateLimitHolds | dbos/_sys_db.py:2115-2145 | In every reachable state and for every `t`, at most `limit` rows of a queue or partition have a start in (t - period, t], for any worker clocks |
| QueueLimits.ConcurrencyHolds | dbos/_sys_db.py:2147-2193 | In every reachable state at most `concurrency` workflows of a queue or partition are pending |
| QueueLimits.PollKeepsWorkerLimit | dbos/_sys_db.py:2170-2181 | One poll does not take a worker over its own limit |
| QueueLimits.OtherEventsShrinkPending | dbos/_core.py:357-361 | Only a poll makes workflows of a queue pending |
| QueueLimits.WindowIsCounted | dbos/_sys_db.py:2124-2143 | A poll whose clock is in a window counts every start in it, whichever clock stamped it |
| Dequeue.SumOfGroups | dbos/_sys_db.py:2150-2185 | The grouped per-executor counts add up to the number of pending workflows |
| Dequeue.FreeSlots | dbos/_sys_db.py:2147-2193 | The free slots computed from the two concurrency limits and the grouped counts are those of the specification, whose bounds are `PollLaws.BatchConservesWork` and the limits of `QueueLimits` |
| Dequeue.OrderedLimit | dbos/_sys_db.py:2224-2239 | ORDER BY with LIMIT: distinct rows in order, as many as asked for and there are, none left out that precedes one taken |
| Dequeue.FirstInOrder | dbos/_sys_db.py:2231-2237 | A row that no other precedes by priority and creation time |
| Dequeue.PrefixIsBatch | dbos/_sys_db.py:2244-2285 | A prefix of the ordered rows of the quota's length is a batch: eligible, ordered, and no eligible row left behind precedes one taken |
| PollLaws.BatchConservesWork | dbos/_sys_db.py:2115-2193 | A poll leaves a workflow waiting that it could start only when afterwards `concurrency` workflows of the queue or partition run, or `worker_concurrency` on this worker, or it took 100 and there is no worker limit, or recent and taken together reach the limiter |
| PollLaws.BatchIsUrgentFirst | dbos/_sys_db.py:2224-2239 | No workflow left waiting is more urgent than one taken, and those taken are in order: lower priority value first where priorities are on, then earlier creation |
| PollLaws.BatchStartsOnlyWaiting | dbos/_sys_db.py:2195-2285 | Those taken were enqueued on the queue or partition with this application version or none, and their rows become pending, this worker's, stamped, and with a deadline if they have a timeout; every other row stays as it was |
| PollLaws.BatchIsFair | dbos/_sys_db.py:2108-2285 | The three together hold of every batch the specification of a poll allows |
| SystemDatabase.SystemDatabase.StartQueuedWorkflows | dbos/_sys_db.py:2108-2285 | A poll is fair: it starts only rows that wait, the most urgent first, and leaves one waiting only when a limit is reached; it marks exactly the rows returned, and they are a batch of the quota's length |
| SystemDatabase.SystemDatabase.StartRows | dbos/_sys_db.py:2243-2285 | Marks a prefix of the rows as started, as long as the limiter allows |
| SystemDatabase.SystemDatabase.InitWorkflow | dbos/_sys_db.py:498-658 | The upsert with its conflicts, dead-lettering commit and decision to execute |
| SystemDatabase.SystemDatabase.UpdateWorkflowOutcome | dbos/_sys_db.py:660-681 | Writes the outcome, whatever the status, and drops the deduplication id |
| SystemDatabase.SystemDatabase.CancelWorkflow | dbos/_sys_db.py:683-708 | Cancels unless completed, and takes the workflow off its queue; no other row changes |
| SystemDatabase.SystemDatabase.ResumeWorkflow | dbos/_sys_db.py:710-734 | Unless completed, enqueues on the internal queue with attempts, deadline and stamp cleared; no other row changes |
| SystemDatabase.SystemDatabase.ClearQueueAssignment | dbos/_sys_db.py:2287-2303 | Puts a pending queued workflow back, and tells whether it did |
| SystemDatabase.SystemDatabase.ForkWorkflow | dbos/_sys_db.py:745-907 | The new row waits on the internal queue, with the four tables copied below `start` when there can be anything; a missing original or a taken id changes nothing |
| SystemDatabase.SystemDatabase.DeleteWorkflows | dbos/_sys_db.py:736-743 | Exactly the given workflows are gone, with everything that hangs on them by foreign key, and the other rows stay as they were |
| SystemDatabase.SystemDatabase.GarbageCollect | dbos/_sys_db.py:2563-2617 | Exactly the workflows older than the effective cutoff that are neither enqueued nor pending go, the other rows stay as they were, and the ids reported are exactly the older ones left; with a threshold `n`, fewer than `n` workflows are newer than that cutoff; a threshold below one is refused by Postgres and counts as one in SQLite |
| SystemDatabase.SystemDatabase.CheckOperationExecution | dbos/_sys_db.py:1455-1535 | Looks a checkpoint up; a cancelled workflow is told so first, and another operation's checkpoint is an error |
| SystemDatabase.SystemDatabase.RecordOperationResult | dbos/_sys_db.py:1311-1381 | Records a checkpoint unless there is one, and takes over as executor either way |
| SystemDatabase.SystemDatabase.Send | dbos/_sys_db.py:1537-1593 | A first success stores exactly the given message, with the checkpoint; when sent before or on an error nothing changes |
| SystemDatabase.SystemDatabase.TakeMessage | dbos/_sys_db.py:1659-1707 | Takes one message with the least timestamp of those addressed to the workflow and topic, checkpoints its body and returns it; or checkpoints that there is none |
| SystemDatabase.SystemDatabase.SetEventFromWorkflow | dbos/_sys_db.py:1835-1902 | A first success leaves exactly the value as the event and in its history under the function id, with the checkpoint; otherwise nothing changes |
| SystemDatabase.SystemDatabase.NextStreamOffset | dbos/_sys_db.py:2411-2424 | One more than the greatest offset of the stream, 0 when it is empty |
| SystemDatabase.SystemDatabase.WriteStreamFromWorkflow | dbos/_sys_db.py:2464-2526 | A first success adds exactly one row, the value at the next offset under the function id, with the checkpoint; otherwise nothing changes |
| SystemDatabase.RetryChangesNothing | dbos/_sys_db.py:325-366 | Calling a checkpointed operation again after a lost acknowledgement succeeds and changes nothing |
| Children.GetWorkflowChildren | dbos/_sys_db.py:2733-2767 | Terminates on any graph, cycles included, and returns exactly the workflows reachable by one or more child edges |
| Children.AddChildren | dbos/_sys_db.py:2746-2765 | One round of the worklist: the children of one workflow are added, the new ones queued |
| Children.ClosureHoldsReachable | dbos/_sys_db.py:2733-2767 | A set closed under child edges holds everything reachable |
| GarbageCollection.SurvivorsKeepRecords | dbos/_workflow_commands.py:56-72 | In every reachable state, with any number of collectors and anything committing between their two deletions, as long as none cleans up to a time still to come: each transaction record committed for a workflow that still has its row is in the application database |
| GarbageCollection.SafeIffCutoffInPast | dbos/_workflow_commands.py:56-72 | The exact condition: when a collector has cleaned the system database, the survivors' records are safe whatever follows if and only if its cutoff was not later than the clock |
| GarbageCollection.OnlyGivenCutoffIsFuture | dbos/_sys_db.py:2563-2584 | The effective cutoff is later than the clock exactly if the cutoff given is, so a caller can check before the call |
| GarbageCollection.LosesARecord | dbos/_app_db.py:183-199 | With a cutoff in the future: a workflow started after the first deletion, whose record the second takes |
| GarbageCollection.OnlyOlderRecordsLost | dbos/_app_db.py:183-199 | Of a workflow still there and not reported, exactly the records before the cutoff go, and they are all older than the workflow |
| GarbageCollection.ThresholdRowsSurvive | dbos/_sys_db.py:2563-2583 | With a threshold `n` alone, at least `n` workflows stay, every one not older than the cutoff stays, and fewer than `n` are newer |
| GarbageCollection.NthNewestUnique | dbos/_sys_db.py:2569-2574 | The n-th newest creation time is one value, however ties are ordered |
| GarbageCollection.FindNthNewest | dbos/_sys_db.py:2569-2574 | ORDER BY created_at DESC LIMIT 1 OFFSET n - 1: found exactly when there are n rows |
| GarbageCollection.SurvivorsKeepRows | dbos/_schemas/system_database.py:95-196 | Cascading deletion takes everything of a deleted workflow and nothing of another |
| WaitNotify.NoLostWakeup | dbos/_sys_db.py:1625-1657 | Over all interleavings, when there is a row under the key of a thread that found none and waits, the thread has been signalled, or the announcement is queued, or the listener is about to signal its condition |
| WaitNotify.LookedAndFound | dbos/_sys_db.py:1625-1657 | A thread that leaves without waiting found a row when it looked, and one that waits found none |
| WaitNotify.SignalledByListener | dbos/_sys_db_postgres.py:118-148 | A waiting thread is signalled only by the listener, holding that thread's condition |
| WaitNotify.EntryIsOurs | dbos/_sys_db.py:2019-2062 | The dictionary entry of a thread that is registered, looking or waiting holds the condition it uses, with the count of the threads between `set` and `pop` |
| WaitNotify.RunKeepsInv | dbos/_sys_db_postgres.py:118-148 | The inductive invariant: entry counts, one holder for each condition, no wakeup lost |
| WaitNotify.ListenKeepsNotLost | dbos/_sys_db_postgres.py:118-148 | The listener's steps lose no wakeup, because it signals only while it holds the condition |
| WaitNotify.StepKeepsOneHolder | dbos/_sys_db.py:1628-1657 | Two threads, or a thread and the listener, never hold one condition together |
| WaitNotify.UsedEntryStays | dbos/_sys_db.py:298-319 | An entry that another thread still counts on survives a `pop` with its condition |
| WaitNotify.PopUndoesSet | dbos/_sys_db.py:298-319 | A `pop` after a `set` restores the dictionary |
| WaitNotify.ThreadSafeConditionDict.Get | dbos/_sys_db.py:291-296 | The condition registered under the key, if any |
| WaitNotify.ThreadSafeConditionDict.Set | dbos/_sys_db.py:298-308 | Adds the condition, or counts one more user of the one that is there |
| WaitNotify.ThreadSafeConditionDict.Pop | dbos/_sys_db.py:310-319 | Counts one user less, and removes the entry with the last |
| Calendar.DateOrder | dbos/_croniter.py:791-795 | Calendar order of dates is the order of their day numbers, through leap years and centuries |
| Calendar.TimeOrder | dbos/_croniter.py:119-123 | Calendar order of times is the order of their time stamps |
| Calendar.OrdinalIsGregorian | dbos/_croniter.py:791-795 | The month table and the leap years number the days as the closed formula for the Gregorian calendar does |
| Calendar.WeekdaysGoRound | dbos/_croniter.py:566-583 | Weekdays go round by seven through every month and leap year, and 1 January 1970 is a Thursday |
| Calendar.PlusDaysCounts | dbos/_croniter.py:540-583 | Adding days across month and year ends adds that many to the day number |
| CronExact.SearchIsRightIffDaysSafe | dbos/_croniter.py:464-703 | The skip-ahead search finds the least matching time after every start, or rightly none within 50 years, if and only if no listed day is lost on leaving February |
| Cron.SearchFindsNext | dbos/_croniter.py:464-703 | With safe days: the result matches, is after the start, and no matching time is between; there is none exactly when the next 50 years have none |
| Cron.SearchMisses | dbos/_croniter.py:464-703 | For any expression, what a search finds is no later than a matching time in the window, unless that is a lost day of March |
| CronExact.LosesADay | dbos/_croniter.py:728-739 | For every expression that is not safe, a start from which a time in March is missed |
| CronExact.SearchFailsIff | dbos/_croniter.py:681-703 | From any start, a search fails if and only if no listed month has the first listed day or no weekday is listed |
| CronUnion.NextIsRightIff | dbos/_croniter.py:347-376 | The exact condition, on the lists, for the iterator with the union of the two day fields: the least matching time from every start, and a failure only when there is none, if and only if a union's alternatives both have times or neither has, and days lost in March are covered by listed weekdays |
| CronUnion.LosesInUnion | dbos/_croniter.py:347-376 | For every union not so covered, a start from which the iterator is wrong, in a year between 2001 and 2028 |
| CronUnion.NextFailsIff | dbos/_croniter.py:347-376 | The iterator fails if and only if no listed month has the first listed day or no weekday is listed; for a union one is enough |
| CronUnion.ThirtiethOfFebruary | dbos/_croniter.py:347-376 | Mondays or the 30th, in February: the iterator fails from every start although there are Mondays |
| CronUnion.SundayAsSeven | dbos/_croniter.py:961-978 | With 7 left in the list, the weekdays searched for are those written if and only if 0 is there too |
| Cron.ShortDaysAreSafe | dbos/_croniter.py:728-739 | Lists of days 1 to 28 are safe |
| Cron.JumpPasses | dbos/_croniter.py:513-669 | The only matching times any jump passes over are days of March before the one where the search lands on leaving February |
| Cron.DayPassedIsLost | dbos/_croniter.py:540-564 | The jump to the next listed day, also into a month too short for it, passes no listed day but such a day of March |
| Cron.CyclicSkip | dbos/_croniter.py:719-739 | Between a position and its jump no position has a value of a cyclic field |
| Cron.Diff | dbos/_croniter.py:719-739 | The distance to the next listed value: zero exactly on one, nothing listed in between, going round only past the last |
| Cron.GetNextNearestDiff | dbos/_croniter.py:719-739 | The loop over the list computes that distance |
| CronIterator.Calc | dbos/_croniter.py:464-703 | The loop over the fields computes the search, and with safe days the least matching time |
| CronIterator.Pass | dbos/_croniter.py:671-699 | One pass over the fields stops at the first that changes the time |
| CronIterator.ProcMonth | dbos/_croniter.py:513-538 | The month field: to the first of the next listed month |
| CronIterator.ProcDayOfMonth | dbos/_croniter.py:540-564 | The day field: forward by the distance to the next listed day |
| CronIterator.ProcDayOfWeek | dbos/_croniter.py:566-583 | The weekday field: forward to the next listed weekday |
| CronIterator.ProcHour | dbos/_croniter.py:632-643 | The hour field: forward to the next listed hour, minutes and seconds cleared |
| CronIterator.ProcMinute | dbos/_croniter.py:645-656 | The minute field: forward to the next listed minute, seconds cleared |
| CronIterator.ProcSecond | dbos/_croniter.py:658-669 | The seconds field, or the whole minute when there is none |
| CronIterator.Croniter.GetNext | dbos/_croniter.py:327-411 | Moves the iterator to the next time, or leaves it where there is none; right whenever the lists satisfy the exact condition |
| Expand.ExpandField | dbos/_croniter.py:853-1007 | One field expands exactly when no part is out of range, to a wildcard or a sorted list that holds exactly the values its parts stand for, except when seven weekdays are miscounted as the week |
| ExpandLaws.ExpandAll | dbos/_croniter.py:853-1007 | A whole expression expands exactly when every part, as written, is in bounds; what it expands to matches a time if and only if every field names its value: a wildcard, or the number or a range as written, Sunday being 0 or 7 in five fields, and seven of eight weekdays counting as the week in six |
| ExpandLaws.ExpandOne | dbos/_croniter.py:853-1007 | The same for one field; a weekday list of a five-field expression never holds 7 |
| ExpandLaws.DenotedAsWritten | dbos/_croniter.py:961-978 | What the expansion keeps of the numbers written: 7 stands for Sunday in five fields and 0 for day 1 in six, every other number for itself |
| ExpandLaws.MiscountAsWritten | dbos/_croniter.py:994-1005 | The seven weekdays are miscounted exactly when, in six fields, 7 and six of the days 0 to 6 are written and the other day field has a wildcard |
| ExpandLaws.BoundsAreTheCalendar | dbos/_croniter.py:177-178 | The bounds of the fields are those of the calendar: every time lies within them |
| Expand.RangeItemsAre | dbos/_croniter.py:936-946 | The numbers of a stepped range are those from low to high at a multiple of the step |
| Expand.ReplaceRange | dbos/_croniter.py:936-946 | Putting a range's numbers on the worklist changes neither the meaning nor the errors |
| Expand.MiscountIs | dbos/_croniter.py:994-1005 | Seven distinct weekday values are the whole week exactly when they are 0 to 6; otherwise one weekday is missing and 7 is there |
| Backfill.BackfillSchedule | dbos/_scheduler.py:138-167 | Terminates and returns, in order, the ids of the times the iterator produces between start and end, each fired once; under the exact condition these are exactly the matching times strictly in between. It fails, with nothing fired, exactly when there is no schedule or the iterator has no times |
| Backfill.BackfillIsExactIff | dbos/_scheduler.py:138-167 | Wherever the iterator has times, backfills produce exactly the matching times between any start and end if and only if the lists satisfy the exact condition |
| Schedule.OneRowPerTime | dbos/_scheduler.py:58-72 | However backfills and live firings overlap, there is one row for each time fired, with the schedule's function and class and the inputs for that time on the internal queue, and rows that were there stay as they were |
| Schedule.FiringAgainChangesNothing | dbos/_scheduler.py:153-166 | Firing times that have their rows changes nothing |
| Schedule.InsertIsFire | dbos/_scheduler.py:89-135 | Two schedulers that both found no row and both insert have the effect of one |
| Schedule.IdDetermines | dbos/_scheduler.py:156-156 | Different times have different workflow ids |
| Schedule.IsoOfANewYear | dbos/_scheduler.py:156-156 | The form of the time in an id, on an example |

## Left out

- Postgres isolation anomalies, row locks, SKIP LOCKED and NOWAIT: transactions are atomic steps.
- Serialization, formats and the truth value of an empty serialized string: values are opaque and non-empty.
- Timestamps and executor ids of checkpoints, authentication, application id and updated_at columns: they do not influence the behaviour modelled.
- Asynchronous outcomes (`Pending`): they call the recording function a second time when it raises, so they are not the same as `Immediate`.
- Starting child workflows, reading results and reading events as operations of the kernel: they are checkpointed lookups like the others; the child edges they leave are the input of `Children`.
- A workflow's row is not deleted while the kernel runs it; deletion and collection are studied in `GarbageCollection` and `AppDatabase`.
- Fork is applied to the states of kernel runs and is not a transition of them; the fork's own run starts from the copied checkpoints.
- Messages.StoredOrDeliveredOnce: receives that a fork copies are not counted, since the fork is another workflow; sends from outside workflows are in `ClientSend`, not in these runs.
- Fork.ForkIsThePast: everything before `start` had been recorded when `start` was next, and operations run one after another, as they do in the kernel; steps started concurrently by asyncio are not modelled.
- Replay.DurableReplay: nothing about what a workflow does after its first unrecorded result, since no more holds (`Past.TimedOutReceiveDiverges`).
- QueueLimits.PollKeepsWorkerLimit: one poll only, since recording a result rewrites the executor id (`dbos/_sys_db.py:1332-1343`) and the count over a whole run means nothing.
- WaitNotify.NoLostWakeup: threads that leave by an exception are modelled for `recv`, whose `finally` cleans up; `get_event` has none, and there only normal exits are modelled. A lost connection and the polling listener are not modelled.
- Payloads that run together (`a::b` with `c`, and `a` with `b::c`): keys of the condition dictionaries are opaque.
- CronIterator.Croniter.GetNext: UTC only; the adjustment for changes of clocks, searching backwards, the year field, `l`, nth weekdays, hashed and random fields are not modelled, and the calendar has no last year.
- Expand.ExpandField: names, `?`, `l`, `#`, hashes and expansion from a start time are not modelled; the text is taken as already split into parts.
- Backfill.BackfillSchedule: times have whole seconds; the serialized inputs are given by a function of the time.
- SystemDatabase.SystemDatabase.RecordOperationResult: the caller has a workflow with a status row; the source asserts it.
- Recovery.RecoverPendingWorkflows: for one executor and with nothing else committing meanwhile; `Lifecycle.BoundedRecovery` covers any interleaving.
- Invocations.InvokeTx: one invocation at a time; any number of them side by side is `Transactions`.
- Debouncing, patching, import and export of workflows, metrics, the admin server, the conductor connection, tracing and the command line.
