/** The transactions on `operation_outputs`, `notifications`, `workflow_events` and
    `streams` that make a workflow durable. Each function is the effect of one
    `engine.begin()` block, committed as a whole or not at all. */
module OperationLog {
  import opened SystemTables

  datatype LogError = WorkflowNotFound | WorkflowCancelled | UnexpectedStep | NonExistentDestination

  /** Looks a checkpoint up. A cancelled workflow is told so before its log is consulted,
      and a checkpoint left by a differently named operation is an error. */
  function CheckOperation(db: Db, wf: Id, fid: nat, name: string): Result<Option<OpRecord>, LogError> {
    if wf !in db.status then Err(WorkflowNotFound)
    else if db.status[wf].status.Cancelled? then Err(WorkflowCancelled)
    else if (wf, fid) !in db.ops then Ok(None)
    else if db.ops[(wf, fid)].name != name then Err(UnexpectedStep)
    else Ok(Some(db.ops[(wf, fid)]))
  }

  /** The executor that records a result becomes the workflow's executor. */
  function TakeOver(st: StatusTable, wf: Id, executor: Option<string>): StatusTable
    requires wf in st
  {
    if executor.Some? && st[wf].executorId != executor then st[wf := st[wf].(executorId := executor)] else st
  }

  /** Records a checkpoint. The first writer wins: a later record is dropped silently. */
  function RecordOperation(db: Db, wf: Id, fid: nat, rec: OpRecord, executor: Option<string>): Db
    requires wf in db.status
  {
    db.(status := TakeOver(db.status, wf, executor),
        ops := if (wf, fid) in db.ops then db.ops else db.ops[(wf, fid) := rec])
  }

  function UnitRecord(name: string): OpRecord {
    OpRecord(name, None, None, None)
  }

  // ----- notifications -----

  const SEND := "DBOS.send"
  const RECV := "DBOS.recv"
  const SLEEP := "DBOS.sleep"
  const SET_EVENT := "DBOS.setEvent"
  const WRITE_STREAM := "DBOS.writeStream"
  const CLOSE_STREAM := "DBOS.closeStream"

  /** Inserts the message and checkpoints the send in one transaction. */
  function SendTxn(db: Db, wf: Id, fid: nat, id: string, n: Note, executor: Option<string>): Db
    requires wf in db.status
  {
    RecordOperation(db.(notes := db.notes[id := n]), wf, fid, UnitRecord(SEND), executor)
  }

  predicate Addressed(db: Db, id: string, dest: Id, topic: string) {
    id in db.notes && db.notes[id].dest == dest && db.notes[id].topic == topic
  }

  /** The message a `recv` may take: one with the least timestamp. */
  ghost predicate Oldest(db: Db, id: string, dest: Id, topic: string) {
    && Addressed(db, id, dest, topic)
    && forall other :: Addressed(db, other, dest, topic) ==> db.notes[id].createdAt <= db.notes[other].createdAt
  }

  /** Deletes the message and checkpoints the receive in one transaction. */
  function RecvTxn(db: Db, wf: Id, fid: nat, id: string, executor: Option<string>): Db
    requires wf in db.status && id in db.notes
  {
    RecordOperation(db.(notes := db.notes - {id}), wf, fid,
                    OpRecord(RECV, Some(db.notes[id].body), None, None), executor)
  }

  /** A `recv` that times out records a NULL output. */
  function RecvTimeoutTxn(db: Db, wf: Id, fid: nat, executor: Option<string>): Db
    requires wf in db.status
  {
    RecordOperation(db, wf, fid, UnitRecord(RECV), executor)
  }

  // ----- events -----

  function PutEvent(db: Db, wf: Id, fid: nat, key: string, value: Value): Db {
    db.(events := db.events[(wf, key) := value], history := db.history[(wf, key, fid) := value])
  }

  function SetEventTxn(db: Db, wf: Id, fid: nat, key: string, value: Value, executor: Option<string>): Db
    requires wf in db.status
  {
    RecordOperation(PutEvent(db, wf, fid, key, value), wf, fid, UnitRecord(SET_EVENT), executor)
  }

  // ----- streams -----

  function Offsets(s: StreamTable, wf: Id, key: string): set<nat> {
    set k | k in s && k.0 == wf && k.1 == key :: k.2
  }

  /** One more than the greatest element, or zero for the empty set. */
  ghost function Bound(s: set<nat>): (n: nat)
    ensures forall o :: o in s ==> o < n
    ensures n > 0 ==> n - 1 in s
  {
    if s == {} then 0
    else
      var x :| x in s;
      var m := Bound(s - {x});
      assert s == (s - {x}) + {x};
      if x < m then m else x + 1
  }

  ghost function NextOffset(s: StreamTable, wf: Id, key: string): nat {
    Bound(Offsets(s, wf, key))
  }

  ghost function Append(db: Db, wf: Id, fid: nat, key: string, value: Value): Db {
    db.(streams := db.streams[(wf, key, NextOffset(db.streams, wf, key)) := StreamRow(value, fid)])
  }

  function StreamOpName(value: Value): string {
    if value == STREAM_CLOSED_SENTINEL then CLOSE_STREAM else WRITE_STREAM
  }

  ghost function WriteStreamTxn(db: Db, wf: Id, fid: nat, key: string, value: Value, executor: Option<string>): Db
    requires wf in db.status
  {
    RecordOperation(Append(db, wf, fid, key, value), wf, fid, UnitRecord(StreamOpName(value)), executor)
  }
}
