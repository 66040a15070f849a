/** The tables of the system database, each as a map from its primary key to a row.

    Serialized inputs, outputs, errors and messages are opaque strings. One value of
    type `Db` is the content of the whole database between two transactions. */
module SystemTables {

  datatype Option<+T> = None | Some(value: T)

  datatype Result<+T, +E> = Ok(value: T) | Err(error: E)

  type Id = string
  type Value = string

  datatype Status =
    | Pending
    | Success
    | Error
    | MaxRecoveryAttemptsExceeded
    | Cancelled
    | Enqueued

  /** A row of `workflow_status`, keyed by workflow id. */
  datatype Row = Row(
    status: Status,
    name: string,
    className: Option<string>,
    configName: Option<string>,
    queueName: Option<string>,
    partitionKey: Option<string>,
    dedupId: Option<string>,
    priority: int,
    createdAt: int,
    startedAt: Option<int>,
    recoveryAttempts: int,
    executorId: Option<string>,
    appVersion: Option<string>,
    timeoutMs: Option<int>,
    deadlineMs: Option<int>,
    ownerXid: Option<string>,
    inputs: Value,
    output: Option<Value>,
    error: Option<Value>,
    forkedFrom: Option<Id>)

  type StatusTable = map<Id, Row>

  /** A row of `operation_outputs`, keyed by workflow id and function id. */
  datatype OpRecord = OpRecord(
    name: string,
    output: Option<Value>,
    error: Option<Value>,
    child: Option<Id>)

  type OpTable = map<(Id, nat), OpRecord>

  /** A row of `notifications`, keyed by message id. */
  datatype Note = Note(dest: Id, topic: string, body: Value, createdAt: int)

  /** A row of `streams`, keyed by workflow id, stream key and offset. */
  datatype StreamRow = StreamRow(value: Value, fid: nat)

  type StreamTable = map<(Id, string, nat), StreamRow>

  datatype Db = Db(
    status: StatusTable,
    ops: OpTable,
    notes: map<string, Note>,
    events: map<(Id, string), Value>,
    history: map<(Id, string, nat), Value>,
    streams: StreamTable)

  const INTERNAL_QUEUE_NAME := "_dbos_internal_queue"
  const STREAM_CLOSED_SENTINEL := "__DBOS_STREAM_CLOSED__"

  /** A workflow in one of these states is never executed again. */
  predicate Completed(r: Row) {
    r.status.Success? || r.status.Error?
  }

  predicate Active(r: Row) {
    r.status.Enqueued? || r.status.Pending?
  }
}
