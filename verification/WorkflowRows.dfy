/** The transactions on `workflow_status`: starting, finishing, cancelling, resuming, forking,
    requeueing and removing workflows. Each function is the effect of one transaction. */
module WorkflowRows {
  import opened SystemTables

  // ----- starting -----

  /** The row a caller of `init_workflow` proposes. */
  datatype Request = Request(
    id: Id,
    status: Status,
    name: string,
    className: Option<string>,
    configName: Option<string>,
    queueName: Option<string>,
    partitionKey: Option<string>,
    dedupId: Option<string>,
    priority: int,
    executorId: Option<string>,
    appVersion: Option<string>,
    timeoutMs: Option<int>,
    deadlineMs: Option<int>,
    inputs: Value)

  datatype StartError = QueueDeduplicated | ConflictingWorkflow | MaxAttemptsExceeded

  datatype Started = Started(status: Status, deadlineMs: Option<int>, shouldExecute: bool)

  /** Who is asking: the id of this call, and whether it recovers or dequeues the workflow. */
  datatype Caller = Caller(ownerXid: Option<string>, isRecovery: bool, isDequeue: bool, maxAttempts: Option<int>)

  predicate Forced(c: Caller) {
    c.isRecovery || c.isDequeue
  }

  function NewRow(req: Request, c: Caller, now: int): Row {
    Row(req.status, req.name, req.className, req.configName, req.queueName, req.partitionKey, req.dedupId,
        req.priority, now, None, if req.status.Enqueued? then 0 else 1, req.executorId, req.appVersion,
        req.timeoutMs, req.deadlineMs, c.ownerXid, req.inputs, None, None, None)
  }

  /** The unique constraint on queue name and deduplication id; NULLs never collide. */
  predicate DedupTaken(st: StatusTable, req: Request) {
    req.dedupId.Some? && req.queueName.Some?
    && exists id | id in st :: st[id].queueName == req.queueName && st[id].dedupId == req.dedupId
  }

  /** The update made when the workflow id is already taken. */
  function Touched(r: Row, req: Request, c: Caller): Row {
    var n := if !r.status.Enqueued? && Forced(c) then r.recoveryAttempts + 1 else r.recoveryAttempts;
    if req.status.Enqueued? then r.(recoveryAttempts := n)
    else r.(recoveryAttempts := n, executorId := req.executorId)
  }

  function DeadLettered(r: Row): Row {
    if r.status.Pending? then
      r.(status := MaxRecoveryAttemptsExceeded, dedupId := None, startedAt := None, queueName := None)
    else r
  }

  predicate SameFunction(r: Row, req: Request) {
    r.name == req.name && r.className == req.className && r.configName == req.configName
  }

  predicate TooManyAttempts(r: Row, c: Caller) {
    && !Completed(r)
    && c.maxAttempts.Some? && r.recoveryAttempts > c.maxAttempts.value + 1
    && c.ownerXid != r.ownerXid
  }

  /** `init_workflow`. A deduplication or name conflict rolls the transaction back; dead-lettering
      commits before its error is raised. */
  function InitWorkflow(st: StatusTable, req: Request, c: Caller, now: int): (StatusTable,
                        Result<Started, StartError>) {
    if req.id !in st && DedupTaken(st, req) then (st, Err(QueueDeduplicated))
    else
      var r := if req.id in st then Touched(st[req.id], req, c) else NewRow(req, c, now);
      if !SameFunction(r, req) then (st, Err(ConflictingWorkflow))
      else if TooManyAttempts(r, c) then (st[req.id := DeadLettered(r)], Err(MaxAttemptsExceeded))
      else (st[req.id := r], Ok(Started(r.status, r.deadlineMs, Forced(c) || c.ownerXid == r.ownerXid)))
  }

  /** `start_workflow` hands the workflow to an executor thread. */
  predicate HandedOver(result: Result<Started, StartError>) {
    result.Ok? && result.value.shouldExecute && !result.value.status.Success? && !result.value.status.Error?
  }

  // ----- the other transactions -----

  datatype Outcome = Succeeded(v: Value) | Failed(e: Value)

  function Finished(r: Row, o: Outcome): Row {
    match o
    case Succeeded(v) => r.(status := Success, output := Some(v), error := None, dedupId := None)
    case Failed(e) => r.(status := Error, output := None, error := Some(e), dedupId := None)
  }

  function UpdateOutcome(st: StatusTable, id: Id, o: Outcome): StatusTable {
    if id in st then st[id := Finished(st[id], o)] else st
  }

  function CancelWorkflow(st: StatusTable, id: Id): StatusTable {
    if id in st && !Completed(st[id]) then
      st[id := st[id].(status := Cancelled, queueName := None, dedupId := None, startedAt := None)]
    else st
  }

  function ResumeWorkflow(st: StatusTable, id: Id): StatusTable {
    if id in st && !Completed(st[id]) then
      st[id := st[id].(status := Enqueued, queueName := Some(INTERNAL_QUEUE_NAME), recoveryAttempts := 0,
                       deadlineMs := None, dedupId := None, startedAt := None)]
    else st
  }

  function ForkRow(orig: Row, from: Id, appVersion: Option<string>, now: int): Row {
    Row(Enqueued, orig.name, orig.className, orig.configName, Some(INTERNAL_QUEUE_NAME), None, None, 0, now, None,
        0, None, appVersion, None, None, None, orig.inputs, None, None, Some(from))
  }

  /** Puts a dequeued workflow back on its queue. */
  function ClearQueueAssignment(st: StatusTable, id: Id): StatusTable {
    if id in st && st[id].queueName.Some? && st[id].status.Pending? then
      st[id := st[id].(status := Enqueued, startedAt := None)]
    else st
  }

  function DeleteWorkflows(st: StatusTable, ids: set<Id>): StatusTable {
    st - ids
  }

  /** Garbage collection keeps active workflows and those created at the cutoff or later. */
  function CollectBefore(st: StatusTable, cutoff: int): StatusTable {
    map id | id in st && (st[id].createdAt >= cutoff || Active(st[id])) :: st[id]
  }

  // ----- dequeueing -----

  datatype Limiter = Limiter(limit: int, periodMs: int)

  datatype Queue = Queue(
    name: string,
    concurrency: Option<int>,
    workerConcurrency: Option<int>,
    limiter: Option<Limiter>,
    priorityEnabled: bool,
    partitioned: bool)

  /** A worker polling a queue, or one partition of it. The limits of a partitioned queue are
      per partition. */
  datatype Worker = Worker(executorId: string, appVersion: string, partition: Option<string>)

  predicate InScope(r: Row, q: Queue, partition: Option<string>) {
    r.queueName == Some(q.name) && (partition.Some? ==> r.partitionKey == partition)
  }

  /** Rows the limiter counts: started within its period, by the asking worker's clock. */
  function Recent(st: StatusTable, q: Queue, partition: Option<string>, since: int): set<Id> {
    set id | id in st && InScope(st[id], q, partition) && !st[id].status.Enqueued?
             && st[id].startedAt.Some? && st[id].startedAt.value > since
  }

  function PendingIn(st: StatusTable, q: Queue, partition: Option<string>): set<Id> {
    set id | id in st && InScope(st[id], q, partition) && st[id].status.Pending?
  }

  function PendingOn(st: StatusTable, q: Queue, partition: Option<string>, executor: Option<string>): set<Id> {
    set id | id in st && InScope(st[id], q, partition) && st[id].status.Pending? && st[id].executorId == executor
  }

  function Eligible(st: StatusTable, q: Queue, w: Worker): set<Id> {
    set id | id in st && InScope(st[id], q, w.partition) && st[id].status.Enqueued?
             && (st[id].appVersion == Some(w.appVersion) || st[id].appVersion == None)
  }

  function Max(a: int, b: int): int {
    if a < b then b else a
  }

  function Min(a: int, b: int): int {
    if a < b then a else b
  }

  const BATCH := 100

  /** Free slots under the concurrency limits. The batch size caps them unless the worker limit
      is set, which replaces it. */
  function Slots(st: StatusTable, q: Queue, w: Worker): int {
    var local :=
      if q.workerConcurrency.Some? then
        Max(0, q.workerConcurrency.value - |PendingOn(st, q, w.partition, Some(w.executorId))|)
      else BATCH;
    if q.concurrency.Some? then Min(local, Max(0, q.concurrency.value - |PendingIn(st, q, w.partition)|)) else local
  }

  /** How many workflows one poll starts. */
  function Quota(st: StatusTable, q: Queue, w: Worker, now: int): int {
    var n := Min(|Eligible(st, q, w)|, Slots(st, q, w));
    if q.limiter.Some? then
      Min(n, Max(0, q.limiter.value.limit - |Recent(st, q, w.partition, now - q.limiter.value.periodMs)|))
    else n
  }

  /** Strictly earlier in queue order. */
  predicate Earlier(a: Row, b: Row, q: Queue) {
    if q.priorityEnabled then a.priority < b.priority || (a.priority == b.priority && a.createdAt < b.createdAt)
    else a.createdAt < b.createdAt
  }

  function Dequeued(r: Row, w: Worker, now: int, dbNow: int): Row {
    r.(status := Pending, appVersion := Some(w.appVersion), executorId := Some(w.executorId), startedAt := Some(now),
       deadlineMs := if r.timeoutMs.Some? && r.deadlineMs.None? then Some(dbNow + r.timeoutMs.value) else r.deadlineMs)
  }

  function MarkDequeued(st: StatusTable, ids: set<Id>, w: Worker, now: int, dbNow: int): StatusTable {
    map id | id in st :: if id in ids then Dequeued(st[id], w, now, dbNow) else st[id]
  }

  ghost predicate Distinct(ids: seq<Id>) {
    forall i, j :: 0 <= i < j < |ids| ==> ids[i] != ids[j]
  }

  ghost predicate InQueueOrder(st: StatusTable, q: Queue, ids: seq<Id>) {
    && (forall i :: 0 <= i < |ids| ==> ids[i] in st)
    && forall i, j :: 0 <= i < j < |ids| ==> !Earlier(st[ids[j]], st[ids[i]], q)
  }

  ghost predicate NoneSkipped(st: StatusTable, q: Queue, w: Worker, ids: seq<Id>) {
    forall id, i :: id in Eligible(st, q, w) && id !in ids && 0 <= i < |ids| ==>
      ids[i] in st && !Earlier(st[id], st[ids[i]], q)
  }

  /** What one poll must return. SQL leaves the order of rows with equal keys open, and so
      does this. */
  ghost predicate IsBatch(st: StatusTable, q: Queue, w: Worker, now: int, ids: seq<Id>) {
    && |ids| == Quota(st, q, w, now)
    && Distinct(ids) && (forall i :: 0 <= i < |ids| ==> ids[i] in Eligible(st, q, w))
    && InQueueOrder(st, q, ids) && NoneSkipped(st, q, w, ids)
  }
}
