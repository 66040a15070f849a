/** Everything that happens to `workflow_status`, over any interleaving of the transactions of
    any number of clients, workers and administrators. */
module Lifecycle {
  import opened SystemTables
  import opened WorkflowRows

  // ----- transitions -----

  /** One committed transaction and, for a start, what it told its caller. */
  datatype Event =
    | StartE(req: Request, caller: Caller, now: int, result: Result<Started, StartError>)
    | OutcomeE(id: Id, outcome: Outcome)
    | CancelE(id: Id)
    | ResumeE(id: Id)
    | ForkE(id: Id, to: Id, appVersion: Option<string>, now: int)
    | ClearE(id: Id)
    | TakeOverE(id: Id, executorId: string)
    | DequeueE(queue: Queue, worker: Worker, now: int, dbNow: int, ids: seq<Id>)
    | DeleteE(gone: set<Id>)
    | CollectE(cutoff: int)

  /** The requests callers make: queued workflows start enqueued, others pending; a client's
      message is kept as a workflow that has already succeeded. */
  predicate RequestOk(req: Request) {
    match req.status
    case Enqueued => req.queueName.Some?
    case Pending => req.queueName.None?
    case Success => req.queueName.None? && req.dedupId.None?
    case _ => false
  }

  /** Queues have one definition, and are polled whole or by partition accordingly. */
  predicate PollOk(queues: map<string, Queue>, q: Queue, w: Worker) {
    q.name in queues && queues[q.name] == q && (w.partition.Some? <==> q.partitioned)
  }

  ghost predicate Next(queues: map<string, Queue>, st: StatusTable, e: Event, st': StatusTable) {
    match e
    case StartE(req, c, now, result) => RequestOk(req) && (st', result) == InitWorkflow(st, req, c, now)
    case OutcomeE(id, o) => st' == UpdateOutcome(st, id, o)
    case CancelE(id) => st' == CancelWorkflow(st, id)
    case ResumeE(id) => st' == ResumeWorkflow(st, id)
    case ForkE(id, to, v, now) => id in st && to !in st && st' == st[to := ForkRow(st[id], id, v, now)]
    case ClearE(id) => st' == ClearQueueAssignment(st, id)
    case TakeOverE(id, x) => id in st && st' == st[id := st[id].(executorId := Some(x))]
    case DequeueE(q, w, now, dbNow, ids) =>
      PollOk(queues, q, w) && IsBatch(st, q, w, now, ids)
      && st' == MarkDequeued(st, set i | 0 <= i < |ids| :: ids[i], w, now, dbNow)
    case DeleteE(gone) => st' == DeleteWorkflows(st, gone)
    case CollectE(cutoff) => st' == CollectBefore(st, cutoff)
  }

  /** `states[i]` is the table after `i` events. */
  ghost predicate StepAt(queues: map<string, Queue>, states: seq<StatusTable>, events: seq<Event>, i: nat)
    requires i < |events| && |states| == |events| + 1
  {
    Next(queues, states[i], events[i], states[i + 1])
  }

  ghost predicate Run(queues: map<string, Queue>, states: seq<StatusTable>, events: seq<Event>) {
    && |states| == |events| + 1 && states[0] == map[]
    && forall i :: 0 <= i < |events| ==> StepAt(queues, states, events, i)
  }

  // ----- the row invariant -----

  ghost predicate RowOk(r: Row) {
    && (r.status.Enqueued? ==> r.queueName.Some? && r.startedAt.None?)
    && (r.status.Cancelled? || r.status.MaxRecoveryAttemptsExceeded? ==>
          r.queueName.None? && r.dedupId.None? && r.startedAt.None?)
    && (r.dedupId.Some? ==> Active(r))
    && (r.startedAt.Some? ==> r.queueName.Some?)
    && (r.status.Pending? && r.queueName.Some? ==> r.startedAt.Some?)
  }

  /** At most one workflow holds a deduplication id on a queue. */
  ghost predicate DedupUnique(st: StatusTable) {
    forall a, b :: a in st && b in st && a != b && st[a].dedupId.Some? && st[a].queueName.Some? ==>
      st[a].queueName != st[b].queueName || st[a].dedupId != st[b].dedupId
  }

  ghost predicate RowsOk(st: StatusTable) {
    && (forall id :: id in st ==> RowOk(st[id]))
    && DedupUnique(st)
  }

  lemma NextKeepsRow(queues: map<string, Queue>, st: StatusTable, e: Event, st': StatusTable, id: Id)
    requires id in st ==> RowOk(st[id])
    requires Next(queues, st, e, st') && id in st'
    ensures RowOk(st'[id])
  {
  }

  /** Only a start puts a deduplication id on a queue, and it looks first. */
  lemma NextKeepsDedup(queues: map<string, Queue>, st: StatusTable, e: Event, st': StatusTable)
    requires DedupUnique(st) && Next(queues, st, e, st')
    ensures DedupUnique(st')
  {
    forall a, b | a in st' && b in st' && a != b && st'[a].dedupId.Some? && st'[a].queueName.Some?
      ensures st'[a].queueName != st'[b].queueName || st'[a].dedupId != st'[b].dedupId
    {
      if !e.StartE? {
        DedupOnlyShrinks(queues, st, e, st', a);
        DedupOnlyShrinks(queues, st, e, st', b);
      }
    }
  }

  lemma DedupOnlyShrinks(queues: map<string, Queue>, st: StatusTable, e: Event, st': StatusTable, id: Id)
    requires Next(queues, st, e, st') && !e.StartE? && id in st'
    ensures st'[id].dedupId.Some? ==>
              id in st && st'[id].dedupId == st[id].dedupId && st'[id].queueName == st[id].queueName
  {
  }

  /** The row invariant and the uniqueness of deduplication ids survive every transaction. */
  lemma NextKeepsRows(queues: map<string, Queue>, st: StatusTable, e: Event, st': StatusTable)
    requires RowsOk(st) && Next(queues, st, e, st')
    ensures RowsOk(st')
  {
    forall id | id in st'
      ensures RowOk(st'[id])
    {
      NextKeepsRow(queues, st, e, st', id);
    }
    NextKeepsDedup(queues, st, e, st');
  }

  /** SUCCESS and ERROR are closed as a pair: no transaction takes a workflow out of them. */
  lemma CompletedIsFinal(queues: map<string, Queue>, st: StatusTable, e: Event, st': StatusTable, id: Id)
    requires Next(queues, st, e, st') && id in st && id in st' && Completed(st[id])
    requires e.DequeueE? ==> RowsOk(st)
    ensures Completed(st'[id])
    ensures !e.OutcomeE? ==>
              st'[id].status == st[id].status && st'[id].output == st[id].output && st'[id].error == st[id].error
  {
  }

  lemma {:induction false} RunKeepsRows(queues: map<string, Queue>, states: seq<StatusTable>, events: seq<Event>,
                                        i: nat)
    requires Run(queues, states, events) && i < |states|
    ensures RowsOk(states[i])
  {
    if i > 0 {
      RunKeepsRows(queues, states, events, i - 1);
      assert StepAt(queues, states, events, i - 1);
      NextKeepsRows(queues, states[i - 1], events[i - 1], states[i]);
    }
  }

  // ----- what a start writes and answers -----

  /** A new row holds what was asked for; a pending workflow counts as started once. */
  ghost predicate CreatedAs(r: Row, req: Request, c: Caller, now: int) {
    && r.status == req.status && r.name == req.name && r.className == req.className && r.configName == req.configName
    && r.queueName == req.queueName && r.partitionKey == req.partitionKey && r.dedupId == req.dedupId
    && r.priority == req.priority && r.createdAt == now && r.startedAt.None?
    && r.recoveryAttempts == (if req.status.Enqueued? then 0 else 1)
    && r.executorId == req.executorId && r.appVersion == req.appVersion && r.timeoutMs == req.timeoutMs
    && r.deadlineMs == req.deadlineMs && r.ownerXid == c.ownerXid && r.inputs == req.inputs
    && r.output.None? && r.error.None? && r.forkedFrom.None?
  }

  /** A start of an existing workflow counts one more attempt when it is a recovery or a dequeue that
      finds it not enqueued, and takes the workflow over unless it only enqueues; nothing else
      changes. */
  ghost predicate TouchedBy(before: Row, after: Row, req: Request, c: Caller) {
    && after.recoveryAttempts == before.recoveryAttempts
                                 + (if (c.isRecovery || c.isDequeue) && !before.status.Enqueued? then 1 else 0)
    && after.executorId == (if req.status.Enqueued? then before.executorId else req.executorId)
    && after == before.(recoveryAttempts := after.recoveryAttempts, executorId := after.executorId)
  }

  /** What a start that succeeds leaves and answers: the row's status and deadline, and to execute when
      the caller recovers, dequeues, or is the one whose id the row has. */
  lemma StartAnswers(st: StatusTable, req: Request, c: Caller, now: int)
    ensures var (st', result) := InitWorkflow(st, req, c, now);
            result.Ok? ==>
              && req.id in st' && st' - {req.id} == st - {req.id}
              && (if req.id in st then TouchedBy(st[req.id], st'[req.id], req, c)
                  else CreatedAs(st'[req.id], req, c, now))
              && result.value.status == st'[req.id].status && result.value.deadlineMs == st'[req.id].deadlineMs
              && (result.value.shouldExecute <==> c.isRecovery || c.isDequeue || c.ownerXid == st'[req.id].ownerXid)
  {
  }

  /** A start is refused as conflicting exactly when the workflow exists as another function, and then
      changes nothing. */
  lemma ConflictIff(st: StatusTable, req: Request, c: Caller, now: int)
    ensures var (st', result) := InitWorkflow(st, req, c, now);
            && (result == Err(ConflictingWorkflow) <==>
                  req.id in st && !(st[req.id].name == req.name && st[req.id].className == req.className
                                    && st[req.id].configName == req.configName))
            && (result == Err(ConflictingWorkflow) ==> st' == st)
  {
  }

  /** A resumed workflow runs again, whatever attempts it had used up: once dequeued, its start is
      handed over. */
  lemma ResumedRunsAgain(st: StatusTable, id: Id, w: Worker, now: int, dbNow: int, req: Request, c: Caller)
    requires id in st && !st[id].status.Success? && !st[id].status.Error?
    requires req.id == id && req.name == st[id].name && req.className == st[id].className
    requires req.configName == st[id].configName && c.isDequeue && (c.maxAttempts.Some? ==> c.maxAttempts.value >= 0)
    ensures var resumed := ResumeWorkflow(st, id);
            && resumed[id].status.Enqueued? && resumed[id].queueName == Some(INTERNAL_QUEUE_NAME)
            && resumed[id].deadlineMs.None? && resumed[id].startedAt.None?
            && HandedOver(InitWorkflow(MarkDequeued(resumed, {id}, w, now, dbNow), req, c, now).1)
  {
  }

  // ----- exactly one starter -----

  /** An ordinary start that was told to execute: not a recovery, not a dequeue. */
  predicate ToldToExecute(e: Event, id: Id) {
    e.StartE? && e.req.id == id && !Forced(e.caller) && e.result.Ok? && e.result.value.shouldExecute
  }

  lemma OwnerIsFixed(queues: map<string, Queue>, st: StatusTable, e: Event, st': StatusTable, id: Id)
    requires Next(queues, st, e, st') && id in st && id in st'
    ensures st'[id].ownerXid == st[id].ownerXid
  {
  }

  lemma {:induction false} OwnerStays(queues: map<string, Queue>, states: seq<StatusTable>, events: seq<Event>,
                                      i: nat, j: nat, id: Id)
    requires Run(queues, states, events) && i <= j < |states|
    requires forall k :: i <= k <= j ==> id in states[k]
    ensures states[i][id].ownerXid == states[j][id].ownerXid
  {
    if i < j {
      OwnerStays(queues, states, events, i, j - 1, id);
      assert StepAt(queues, states, events, j - 1);
      OwnerIsFixed(queues, states[j - 1], events[j - 1], states[j], id);
    }
  }

  /** Exactly one starter. While a workflow's row exists, every ordinary start that is told to
      execute carries the id stored in the row, so all of them are one caller's: a retry after
      a lost commit is told to execute again, and anyone else is not. */
  lemma OneStarter(queues: map<string, Queue>, states: seq<StatusTable>, events: seq<Event>, i: nat, j: nat, id: Id)
    requires Run(queues, states, events) && i <= j < |events|
    requires ToldToExecute(events[i], id) && ToldToExecute(events[j], id)
    requires forall k :: i < k <= j ==> id in states[k]
    ensures id in states[j + 1]
    ensures events[i].caller.ownerXid == events[j].caller.ownerXid == states[j + 1][id].ownerXid
  {
    assert StepAt(queues, states, events, i) && StepAt(queues, states, events, j);
    if i < j {
      OwnerStays(queues, states, events, i + 1, j, id);
    }
  }

  /** The converse: a start of an existing workflow by another caller is not told to execute. */
  lemma OthersDoNotStart(queues: map<string, Queue>, st: StatusTable, e: Event, st': StatusTable, id: Id)
    requires Next(queues, st, e, st') && id in st && e.StartE? && e.req.id == id && !Forced(e.caller)
    requires e.caller.ownerXid != st[id].ownerXid
    ensures !ToldToExecute(e, id)
  {
  }

  /** A start retried after its commit, with the same id, is told the same and changes nothing. */
  lemma RetryIsIdempotent(st: StatusTable, req: Request, c: Caller, now: int, now': int)
    requires req.id !in st && !Forced(c) && InitWorkflow(st, req, c, now).1.Ok?
    ensures var (st', result) := InitWorkflow(st, req, c, now);
            InitWorkflow(st', req, c, now') == (st', result)
  {
    var st' := InitWorkflow(st, req, c, now).0;
    assert st'[req.id := st'[req.id]] == st';
  }

  /** A start is refused as a duplicate exactly when its workflow is new and another one, still
      active, holds the deduplication id on the queue. */
  lemma DuplicateRefusedIff(st: StatusTable, req: Request, c: Caller, now: int)
    requires RowsOk(st)
    ensures InitWorkflow(st, req, c, now) == (st, Err(QueueDeduplicated)) <==>
              && req.id !in st && req.dedupId.Some? && req.queueName.Some?
              && exists id :: && id in st && Active(st[id])
                              && st[id].queueName == req.queueName && st[id].dedupId == req.dedupId
  {
    assert forall id :: id in st ==> RowOk(st[id]);
  }

  // ----- deadlines -----

  /** A workflow with a timeout gets its deadline when it is first dequeued. Nothing but a resume
      changes a deadline once set. */
  lemma DeadlineIsKept(queues: map<string, Queue>, st: StatusTable, e: Event, st': StatusTable, id: Id)
    requires Next(queues, st, e, st') && id in st && id in st'
    ensures st[id].deadlineMs.Some? && !Resets(st, e, id) ==> st'[id].deadlineMs == st[id].deadlineMs
    ensures e.DequeueE? && id in e.ids && st[id].timeoutMs.Some? ==>
              st'[id].deadlineMs == if st[id].deadlineMs.Some? then st[id].deadlineMs
                                    else Some(e.dbNow + st[id].timeoutMs.value)
  {
  }

  // ----- bounded recovery -----

  /** A start that counts as an attempt: the one that creates the row as pending, and every
      recovery or dequeue by a new caller that finds the row not enqueued and is handed over. */
  predicate CountedAttempt(st: StatusTable, e: Event, id: Id) {
    && e.StartE? && e.req.id == id && HandedOver(e.result)
    && if id !in st then e.req.status.Pending?
       else Forced(e.caller) && !st[id].status.Enqueued? && e.caller.ownerXid != st[id].ownerXid
  }

  predicate Resets(st: StatusTable, e: Event, id: Id) {
    e.ResumeE? && e.id == id && id in st && !Completed(st[id])
  }

  /** Attempts among the first `i` events since the row was created or last resumed. */
  ghost function Attempts(states: seq<StatusTable>, events: seq<Event>, i: nat, id: Id): nat
    requires i <= |events| && |states| == |events| + 1
  {
    if i == 0 || id !in states[i] || Resets(states[i - 1], events[i - 1], id) then 0
    else
      (if id in states[i - 1] then Attempts(states, events, i - 1, id) else 0)
      + if CountedAttempt(states[i - 1], events[i - 1], id) then 1 else 0
  }

  predicate StartsAllow(events: seq<Event>, id: Id, max: nat) {
    forall k | 0 <= k < |events| && events[k].StartE? && events[k].req.id == id ::
      events[k].caller.maxAttempts == Some(max as int)
  }

  lemma AttemptStep(queues: map<string, Queue>, st: StatusTable, e: Event, st': StatusTable, id: Id, n: nat, max: nat)
    requires Next(queues, st, e, st') && id in st'
    requires e.StartE? && e.req.id == id ==> e.caller.maxAttempts == Some(max as int)
    requires if id in st then n <= st[id].recoveryAttempts && n <= max + 1 else n == 0
    requires !Resets(st, e, id)
    ensures var n' := n + if CountedAttempt(st, e, id) then 1 else 0;
            n' <= st'[id].recoveryAttempts && n' <= max + 1
  {
  }

  /** Bounded recovery. Between resumes a workflow is handed to execution at most
      `max_recovery_attempts` + 1 times, whatever else happens to it meanwhile: clearing its
      queue assignment, dequeuing it again, taking it over or cancelling it resets nothing. */
  lemma {:induction false} BoundedRecovery(queues: map<string, Queue>, states: seq<StatusTable>, events: seq<Event>,
                                           i: nat, id: Id, max: nat)
    requires Run(queues, states, events) && i <= |events| && StartsAllow(events, id, max)
    ensures Attempts(states, events, i, id) <= max + 1
    ensures id in states[i] ==> Attempts(states, events, i, id) <= states[i][id].recoveryAttempts
  {
    if i > 0 && id in states[i] {
      BoundedRecovery(queues, states, events, i - 1, id, max);
      assert StepAt(queues, states, events, i - 1);
      if !Resets(states[i - 1], events[i - 1], id) {
        AttemptStep(queues, states[i - 1], events[i - 1], states[i], id,
                    if id in states[i - 1] then Attempts(states, events, i - 1, id) else 0, max);
      }
    }
  }

  /** The attempt after the last allowed one dead-letters a pending workflow and takes it off
      its queue; one that is not pending is refused and left alone. */
  lemma LastAttemptDeadLetters(st: StatusTable, req: Request, c: Caller, now: int)
    requires req.id in st && SameFunction(st[req.id], req) && !Completed(st[req.id]) && !st[req.id].status.Enqueued?
    requires Forced(c) && c.maxAttempts.Some? && c.ownerXid != st[req.id].ownerXid
    ensures var (st', result) := InitWorkflow(st, req, c, now);
            if st[req.id].recoveryAttempts <= c.maxAttempts.value then HandedOver(result)
            else
              && result == Err(MaxAttemptsExceeded)
              && (st[req.id].status.Pending? ==>
                    && st'[req.id].status.MaxRecoveryAttemptsExceeded? && st'[req.id].queueName.None?
                    && st'[req.id].dedupId.None? && st'[req.id].startedAt.None?)
              && (!st[req.id].status.Pending? ==> st'[req.id].status == st[req.id].status)
  {
  }
}
