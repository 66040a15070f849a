/** Sending a message from outside any workflow. The send is kept as a workflow of its own, named
    after the destination and the idempotency key. */
module ClientSend {
  import opened SystemTables
  import opened OperationLog
  import opened WorkflowRows
  import SystemDatabase

  const TEMP_SEND_WF_NAME := "<temp>.temp_send_workflow"

  datatype SendError = Refused(cause: StartError) | NotSent(reason: LogError)

  /** A message to send: `id` is the message id the database would give it. */
  datatype Message = Message(dest: Id, topic: string, body: Value, key: string, id: string, now: int)

  function SenderId(m: Message): Id {
    m.dest + "-" + m.key
  }

  function SenderRequest(m: Message): Request {
    Request(SenderId(m), Success, TEMP_SEND_WF_NAME, None, None, None, None, None, 0, None, None, None, None, "")
  }

  const CLIENT := Caller(None, false, false, None)

  /** The two transactions of a client's send. */
  function Send(db: Db, m: Message, executor: Option<string>): (Db, Result<(), SendError>) {
    var (st, started) := InitWorkflow(db.status, SenderRequest(m), CLIENT, m.now);
    var sender := SenderId(m);
    var db := db.(status := st);
    if started.Err? then (db, Err(Refused(started.error)))
    else
      match CheckOperation(db, sender, 0, SEND)
      case Err(e) => (db, Err(NotSent(e)))
      case Ok(Some(_)) => (db, Ok(()))
      case Ok(None) =>
        if m.dest !in st then (db, Err(NotSent(NonExistentDestination)))
        else (SendTxn(db, sender, 0, m.id, Note(m.dest, m.topic, m.body, m.now), executor), Ok(()))
  }

  method ClientSend(sys: SystemDatabase.SystemDatabase, m: Message) returns (r: Result<(), SendError>)
    requires m.id !in sys.notes
    modifies sys
    ensures (sys.Tables(), r) == Send(old(sys.Tables()), m, sys.executorId)
  {
    var started := sys.InitWorkflow(SenderRequest(m), CLIENT, m.now);
    match started {
      case Err(e) => return Err(Refused(e));
      case Ok(_) =>
    }
    var sent := sys.Send(SenderId(m), 0, m.id, Note(m.dest, m.topic, m.body, m.now));
    match sent {
      case Err(e) => r := Err(NotSent(e));
      case Ok(_) => r := Ok(());
    }
  }

  /** The message of a first successful send is stored and checkpointed. */
  lemma FirstSendIsStored(db: Db, m: Message, executor: Option<string>)
    requires (SenderId(m), 0) !in db.ops && m.id !in db.notes
    ensures var (db', r) := Send(db, m, executor);
            && (r.Ok? <==> m.id in db'.notes)
            && (r.Ok? ==> (SenderId(m), 0) in db'.ops && db'.notes[m.id] == Note(m.dest, m.topic, m.body, m.now))
            && (r.Err? ==> db'.notes == db.notes && db'.ops == db.ops)
  {
  }

  /** The sender's row and checkpoint are there, as a send left them. */
  ghost predicate WasSent(db: Db, m: Message) {
    var sender := SenderId(m);
    && sender in db.status && !db.status[sender].status.Cancelled? && SameFunction(db.status[sender], SenderRequest(m))
    && (sender, 0) in db.ops && db.ops[(sender, 0)].name == SEND
  }

  lemma SendLeavesARecord(db: Db, m: Message, executor: Option<string>)
    requires Send(db, m, executor).1.Ok?
    ensures WasSent(Send(db, m, executor).0, m)
  {
  }

  lemma SentBefore(db: Db, again: Message, executor: Option<string>)
    requires WasSent(db, again)
    ensures var (db', r) := Send(db, again, executor); r == Ok(()) && db'.notes == db.notes && db'.ops == db.ops
  {
  }

  /** Idempotence. After a successful send, another with the same destination and key succeeds,
      stores no message and records nothing, whatever its body. */
  lemma SecondSendStoresNothing(db: Db, m: Message, executor: Option<string>, again: Message, executor': Option<string>)
    requires Send(db, m, executor).1.Ok?
    requires again.dest == m.dest && again.key == m.key
    ensures var db1 := Send(db, m, executor).0;
            var (db2, r) := Send(db1, again, executor');
            r == Ok(()) && db2.notes == db1.notes && db2.ops == db1.ops
  {
    SendLeavesARecord(db, m, executor);
    SentBefore(Send(db, m, executor).0, again, executor');
  }

  /** The name does not keep destination and key apart. A send that would be the first with its
      name stores its message, after another send, if and only if the two names differ. */
  lemma StoredIffNamesDiffer(db: Db, m: Message, n: Message, executor: Option<string>)
    requires Send(db, m, executor).1.Ok? && Send(db, n, executor).1.Ok?
    requires (SenderId(m), 0) !in db.ops && (SenderId(n), 0) !in db.ops
    requires SenderId(m) !in db.status && SenderId(n) !in db.status
    requires m.id != n.id && m.id !in db.notes && n.id !in db.notes
    ensures var (db', r) := Send(Send(db, m, executor).0, n, executor);
            r.Ok? && (n.id in db'.notes <==> SenderId(m) != SenderId(n))
  {
    var db1 := Send(db, m, executor).0;
    if SenderId(m) == SenderId(n) {
      SendLeavesARecord(db, m, executor);
      SentBefore(db1, n, executor);
    } else {
      assert (SenderId(n), 0) !in db1.ops && SenderId(n) !in db1.status && n.dest in db1.status;
    }
  }

  /** Two different destinations and keys with one name: the second message is lost. */
  lemma NamesCollide(m: Message, n: Message)
    requires m.dest == "a-b" && m.key == "c" && n.dest == "a" && n.key == "b-c"
    ensures m.dest != n.dest && SenderId(m) == SenderId(n)
  {
    assert SenderId(m) == "a-b-c" && SenderId(n) == "a-b-c";
  }
}
