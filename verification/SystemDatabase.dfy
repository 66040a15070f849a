/** The system database object. Its methods change the tables in place, one transaction each,
    and each is proved against the function that specifies its transaction. */
module SystemDatabase {
  import opened SystemTables
  import opened OperationLog
  import opened WorkflowRows
  import opened QueueLimits
  import Lifecycle
  import opened Dequeue
  import opened PollLaws
  import Fork
  import opened GarbageCollection

  class SystemDatabase {
    const executorId: Option<string>
    const postgres: bool
    var status: StatusTable
    var ops: OpTable
    var notes: map<string, Note>
    var events: map<(Id, string), Value>
    var history: map<(Id, string, nat), Value>
    var streams: StreamTable

    constructor (executorId: Option<string>, postgres: bool)
      ensures this.executorId == executorId && this.postgres == postgres
      ensures Tables() == Db(map[], map[], map[], map[], map[], map[])
    {
      this.executorId, this.postgres := executorId, postgres;
      status, ops, notes, events, history, streams := map[], map[], map[], map[], map[], map[];
    }

    function Tables(): Db
      reads this
    {
      Db(status, ops, notes, events, history, streams)
    }

    // ----- workflow_status -----

    method InitWorkflow(req: Request, c: Caller, now: int) returns (result: Result<Started, StartError>)
      modifies this`status
      ensures (status, result) == WorkflowRows.InitWorkflow(old(status), req, c, now)
      ensures result.Ok? ==> req.id in status && status - {req.id} == old(status) - {req.id}
      ensures result.Ok? && req.id !in old(status) ==> Lifecycle.CreatedAs(status[req.id], req, c, now)
      ensures result.Ok? && req.id in old(status) ==> Lifecycle.TouchedBy(old(status)[req.id], status[req.id], req, c)
    {
      var before := status;
      Lifecycle.StartAnswers(before, req, c, now);
      if req.id in status {
        var r := status[req.id];
        if !r.status.Enqueued? && Forced(c) {
          r := r.(recoveryAttempts := r.recoveryAttempts + 1);
        }
        if !req.status.Enqueued? {
          r := r.(executorId := req.executorId);
        }
        status := status[req.id := r];
      } else {
        if DedupTaken(status, req) {
          return Err(QueueDeduplicated);
        }
        status := status[req.id := NewRow(req, c, now)];
      }
      var row := status[req.id];
      if row.name != req.name || row.className != req.className || row.configName != req.configName {
        status := before;
        return Err(ConflictingWorkflow);
      }
      if TooManyAttempts(row, c) {
        if row.status.Pending? {
          status := status[req.id := row.(status := MaxRecoveryAttemptsExceeded, dedupId := None,
                                          startedAt := None, queueName := None)];
        }
        assert status == before[req.id := DeadLettered(row)];
        return Err(MaxAttemptsExceeded);
      }
      var shouldExecute := true;
      if c.ownerXid != row.ownerXid && !c.isDequeue && !c.isRecovery {
        shouldExecute := false;
      }
      result := Ok(Started(row.status, row.deadlineMs, shouldExecute));
    }

    method UpdateWorkflowOutcome(id: Id, o: Outcome)
      modifies this`status
      ensures status == UpdateOutcome(old(status), id, o)
      ensures OthersSame(old(status), status, id)
      ensures id in status ==>
                && status[id].dedupId.None?
                && var r := status[id];
                   match o
                   case Succeeded(v) => r.status.Success? && r.output == Some(v) && r.error.None?
                   case Failed(e) => r.status.Error? && r.error == Some(e) && r.output.None?
    {
      if id in status {
        var r := status[id].(dedupId := None);
        match o {
          case Succeeded(v) => r := r.(status := Success, output := Some(v), error := None);
          case Failed(e) => r := r.(status := Error, output := None, error := Some(e));
        }
        status := status[id := r];
      }
    }

    method CancelWorkflow(id: Id)
      modifies this`status
      ensures status == WorkflowRows.CancelWorkflow(old(status), id)
      ensures OthersSame(old(status), status, id)
      ensures id in status ==>
                var r := old(status)[id];
                status[id] == if r.status.Success? || r.status.Error? then r
                              else r.(status := Cancelled, queueName := None, dedupId := None, startedAt := None)
    {
      if id in status && !status[id].status.Success? && !status[id].status.Error? {
        status := status[id := status[id].(status := Cancelled, queueName := None, dedupId := None, startedAt := None)];
      }
    }

    method ResumeWorkflow(id: Id)
      modifies this`status
      ensures status == WorkflowRows.ResumeWorkflow(old(status), id)
      ensures OthersSame(old(status), status, id)
      ensures id in status ==>
                var r := old(status)[id];
                status[id] == if r.status.Success? || r.status.Error? then r
                              else r.(status := Enqueued, queueName := Some(INTERNAL_QUEUE_NAME), recoveryAttempts := 0,
                                      deadlineMs := None, dedupId := None, startedAt := None)
    {
      if id in status && !status[id].status.Success? && !status[id].status.Error? {
        status := status[id := status[id].(status := Enqueued, queueName := Some(INTERNAL_QUEUE_NAME),
                                           recoveryAttempts := 0, deadlineMs := None,
                                           dedupId := None, startedAt := None)];
      }
    }

    /** Tells whether the workflow was put back on its queue. */
    method ClearQueueAssignment(id: Id) returns (cleared: bool)
      modifies this`status
      ensures status == WorkflowRows.ClearQueueAssignment(old(status), id)
      ensures OthersSame(old(status), status, id)
      ensures cleared <==> id in old(status) && old(status)[id].status.Pending? && old(status)[id].queueName.Some?
      ensures id in status ==>
                && var r := old(status)[id];
                   status[id] == if cleared then r.(status := Enqueued, startedAt := None) else r
      ensures cleared <==> id in old(status) && old(status)[id].status.Pending? && status[id].status.Enqueued?
    {
      cleared := id in status && status[id].queueName.Some? && status[id].status.Pending?;
      if cleared {
        status := status[id := status[id].(status := Enqueued, startedAt := None)];
      }
    }

    method ForkWorkflow(wf: Id, to: Id, start: int, appVersion: Option<string>, now: int)
      returns (result: Result<Id, Fork.ForkError>)
      modifies this
      ensures var forked := Fork.ForkWorkflow(old(Tables()), wf, to, start, appVersion, now);
              if forked.Ok? then result == Ok(to) && Tables() == forked.value
              else result == Err(forked.error) && Tables() == old(Tables())
    {
      if wf !in status {
        return Err(Fork.OriginalNotFound);
      }
      if to in status {
        return Err(Fork.ForkedIdTaken);
      }
      status := status[to := ForkRow(status[wf], wf, appVersion, now)];
      if start > 1 {
        CopyTables(wf, to, start);
      }
      result := Ok(to);
    }

    method CopyTables(wf: Id, to: Id, start: int)
      modifies this
      ensures Tables() == Fork.CopyTables(old(Tables()), wf, to, start)
    {
      CopyOps(wf, to, start);
      CopyHistory(wf, to, start);
      CopyEvents(wf, to, start);
      CopyStreams(wf, to, start);
    }

    method CopyOps(wf: Id, to: Id, start: int)
      modifies this`ops
      ensures Tables() == Fork.CopyOps(old(Tables()), wf, to, start)
    {
      ops := ops + Fork.CopiedOps(ops, wf, to, start);
    }

    method CopyHistory(wf: Id, to: Id, start: int)
      modifies this`history
      ensures Tables() == Fork.CopyHistory(old(Tables()), wf, to, start)
    {
      history := history + Fork.CopiedHistory(history, wf, to, start);
    }

    method CopyEvents(wf: Id, to: Id, start: int)
      modifies this`events
      ensures Tables() == Fork.CopyEvents(old(Tables()), wf, to, start)
    {
      events := events + Fork.CopiedEvents(history, wf, to, start);
    }

    method CopyStreams(wf: Id, to: Id, start: int)
      modifies this`streams
      ensures Tables() == Fork.CopyStreams(old(Tables()), wf, to, start)
    {
      streams := streams + Fork.CopiedStreams(streams, wf, to, start);
    }

    /** Starts as many workflows of a queue as its limits allow. The ids returned are the first
        ones in queue order, as many as the quota, and the table marks exactly these. */
    method StartQueuedWorkflows(q: Queue, w: Worker, now: int, dbNow: int) returns (ids: seq<Id>)
      modifies this`status
      ensures IsBatch(old(status), q, w, now, ids)
      ensures status == MarkDequeued(old(status), Ids(ids), w, now, dbNow)
      ensures FairPoll(old(status), status, q, w, now, dbNow, ids)
    {
      ids := [];
      var st := status;
      var recent := 0;
      if q.limiter.Some? {
        recent := |Recent(st, q, w.partition, now - q.limiter.value.periodMs)|;
        if recent >= q.limiter.value.limit {
          Unmarked(st, w, now, dbNow);
          BatchIsFair(st, q, w, now, dbNow, ids);
          return;
        }
      }
      var maxTasks := FreeSlots(st, q, w);
      var rows, rest := OrderedLimit(st, q, Eligible(st, q, w), maxTasks);
      ids := StartRows(rows, q.limiter, recent, w, now, dbNow);
      PrefixIsBatch(st, q, w, now, rows, rest, |ids|);
      BatchIsFair(st, q, w, now, dbNow, ids);
    }

    /** Marks the first rows as started, as many as the limiter still allows. */
    method StartRows(rows: seq<Id>, limiter: Option<Limiter>, recent: nat, w: Worker, now: int, dbNow: int)
      returns (ids: seq<Id>)
      requires Distinct(rows) && forall i :: 0 <= i < |rows| ==> rows[i] in status
      requires limiter.Some? ==> recent < limiter.value.limit
      modifies this`status
      ensures |ids| == if limiter.Some? then Min(|rows|, limiter.value.limit - recent) else |rows|
      ensures ids == rows[..|ids|]
      ensures status == MarkDequeued(old(status), Ids(ids), w, now, dbNow)
    {
      ghost var st := status;
      Unmarked(st, w, now, dbNow);
      ids := [];
      while |ids| < |rows|
        invariant |ids| <= |rows| && ids == rows[..|ids|]
        invariant limiter.Some? ==> |ids| + recent <= limiter.value.limit
        invariant status == MarkDequeued(st, Ids(ids), w, now, dbNow)
        decreases |rows| - |ids|
      {
        if limiter.Some? && |ids| + recent >= limiter.value.limit {
          break;
        }
        var id := rows[|ids|];
        assert id !in ids;
        IdsSnoc(ids, id);
        status := status[id := Dequeued(status[id], w, now, dbNow)];
        ids := ids + [id];
      }
    }

    method DeleteWorkflows(ids: set<Id>)
      modifies this
      ensures Tables() == Cascade(old(Tables()), WorkflowRows.DeleteWorkflows(old(status), ids))
      ensures forall id :: id in status <==> id in old(status) && id !in ids
      ensures forall id :: id in status ==> status[id] == old(status)[id]
    {
      status := status - ids;
      DeleteOrphans();
    }

    /** What the foreign keys do when rows of `workflow_status` go. */
    method DeleteOrphans()
      modifies this`ops, this`notes, this`events, this`history, this`streams
      ensures Tables() == Cascade(old(Tables()), status)
    {
      ops := map k | k in ops && k.0 in status :: ops[k];
      notes := map m | m in notes && notes[m].dest in status :: notes[m];
      events := map k | k in events && k.0 in status :: events[k];
      history := map k | k in history && k.0 in status :: history[k];
      streams := map k | k in streams && k.0 in status :: streams[k];
    }

    /** Deletes the inactive workflows older than the effective cutoff, and returns that cutoff
        with the older workflows it left. Postgres refuses a negative offset. */
    method GarbageCollect(cutoff: Option<int>, rowsThreshold: Option<int>)
      returns (result: Result<Option<(int, set<Id>)>, CollectError>)
      modifies this
      ensures result.Err? <==> postgres && rowsThreshold.Some? && rowsThreshold.value < 1
      ensures result.Err? || result.value.None? ==> Tables() == old(Tables())
      ensures result.Ok? && result.value.None? ==> forall c :: !EffectiveCutoff(old(status), cutoff, rowsThreshold, c)
      ensures result.Ok? && cutoff.Some? ==> result.value.Some? && result.value.value.0 >= cutoff.value
      ensures result.Ok? && result.value.Some? ==>
                var (c, remaining) := result.value.value;
                && EffectiveCutoff(old(status), cutoff, rowsThreshold, c)
                && Tables() == Cascade(old(Tables()), CollectBefore(old(status), c))
                && CollectedUpTo(old(status), status, c)
                && LeftBehind(old(status), remaining, c)
      ensures result.Ok? && rowsThreshold.Some? && |old(status)| >= 1 && |old(status)| >= rowsThreshold.value ==>
                result.value.Some? && MeetsThreshold(old(status), cutoff, rowsThreshold.value, result.value.value.0)
    {
      var effective := cutoff;
      if rowsThreshold.Some? {
        if postgres && rowsThreshold.value < 1 {
          return Err(NegativeOffset);
        }
        var t := FindNthNewest(status, NthOf(rowsThreshold.value));
        if t.Some? && (cutoff.None? || t.value > cutoff.value) {
          effective := t;
        }
      }
      if effective.None? {
        return Ok(None);
      }
      if rowsThreshold.Some? && |status| >= 1 && |status| >= rowsThreshold.value {
        CutoffMeetsThreshold(status, cutoff, rowsThreshold.value, effective.value);
      }
      status := CollectBefore(status, effective.value);
      DeleteOrphans();
      result := Ok(Some((effective.value, OldRemaining(status, effective.value))));
    }

    // ----- operation_outputs -----

    method CheckOperationExecution(wf: Id, fid: nat,
                                   name: string) returns (result: Result<Option<OpRecord>, LogError>)
      ensures result == CheckOperation(Tables(), wf, fid, name)
    {
      if wf !in status {
        return Err(WorkflowNotFound);
      }
      if status[wf].status.Cancelled? {
        return Err(WorkflowCancelled);
      }
      if (wf, fid) !in ops {
        return Ok(None);
      }
      var rec := ops[(wf, fid)];
      result := if rec.name != name then Err(UnexpectedStep) else Ok(Some(rec));
    }

    method RecordOperationResult(wf: Id, fid: nat, rec: OpRecord)
      requires wf in status
      modifies this`status, this`ops
      ensures Tables() == RecordOperation(old(Tables()), wf, fid, rec, executorId)
      ensures (wf, fid) in ops && ops[(wf, fid)] == if (wf, fid) in old(ops) then old(ops)[(wf, fid)] else rec
      ensures executorId.Some? ==> status[wf].executorId == executorId
    {
      if executorId.Some? && status[wf].executorId != executorId {
        status := status[wf := status[wf].(executorId := executorId)];
      }
      if (wf, fid) !in ops {
        ops := ops[(wf, fid) := rec];
      }
    }

    // ----- messages, events, streams -----

    /** Sends unless the checkpoint says the message was sent before. */
    method Send(wf: Id, fid: nat, id: string, n: Note) returns (result: Result<(), LogError>)
      requires id !in notes
      modifies this
      ensures Done(old(Tables()), wf, fid, SEND, result, Tables(),
                   if n.dest !in old(status) then Err(NonExistentDestination)
                   else if wf in old(status) then Ok(SendTxn(old(Tables()), wf, fid, id, n, executorId))
                   else Err(WorkflowNotFound))
      ensures result.Ok? && (wf, fid) !in old(ops) ==>
                notes == old(notes)[id := n] && (wf, fid) in ops && ops[(wf, fid)].name == SEND
    {
      var found := CheckOperationExecution(wf, fid, SEND);
      match found {
        case Err(e) => return Err(e);
        case Ok(Some(_)) => return Ok(());
        case Ok(None) =>
      }
      if n.dest !in status {
        return Err(NonExistentDestination);
      }
      notes := notes[id := n];
      RecordOperationResult(wf, fid, UnitRecord(SEND));
      result := Ok(());
    }

    /** The last transaction of `recv`: takes the oldest message and checkpoints it, or
        checkpoints that there was none. */
    method TakeMessage(wf: Id, fid: nat, topic: string) returns (message: Option<Value>)
      requires wf in status
      modifies this
      ensures message.None? ==>
                && (forall id :: !Addressed(old(Tables()), id, wf, topic))
                && Tables() == RecvTimeoutTxn(old(Tables()), wf, fid, executorId)
      ensures message.Some? ==>
                exists id :: && Oldest(old(Tables()), id, wf, topic)
                             && message.value == old(notes)[id].body
                             && Tables() == RecvTxn(old(Tables()), wf, fid, id, executorId)
                             && notes == old(notes) - {id}
      ensures (wf, fid) !in old(ops) ==>
                (wf, fid) in ops && ops[(wf, fid)].name == RECV && ops[(wf, fid)].output == message
    {
      var todo := set id | id in notes && notes[id].dest == wf && notes[id].topic == topic;
      assert forall y :: Addressed(Tables(), y, wf, topic) ==> y in todo;
      if todo == {} {
        RecordOperationResult(wf, fid, UnitRecord(RECV));
        return None;
      }
      var first :| first in todo;
      ghost var all := todo;
      while todo != {}
        invariant first in all && todo <= all
        invariant forall y :: y in all && y !in todo ==> notes[first].createdAt <= notes[y].createdAt
      {
        var x :| x in todo;
        if notes[x].createdAt < notes[first].createdAt {
          first := x;
        }
        todo := todo - {x};
      }
      assert forall y :: Addressed(Tables(), y, wf, topic) ==> y in all;
      assert Oldest(Tables(), first, wf, topic);
      var body := notes[first].body;
      notes := notes - {first};
      RecordOperationResult(wf, fid, OpRecord(RECV, Some(body), None, None));
      message := Some(body);
    }

    method PutEvent(wf: Id, fid: nat, key: string, value: Value)
      modifies this`events, this`history
      ensures Tables() == OperationLog.PutEvent(old(Tables()), wf, fid, key, value)
      ensures events == old(events)[(wf, key) := value] && history == old(history)[(wf, key, fid) := value]
    {
      events := events[(wf, key) := value];
      history := history[(wf, key, fid) := value];
    }

    method SetEventFromWorkflow(wf: Id, fid: nat, key: string, value: Value) returns (result: Result<(), LogError>)
      modifies this
      ensures Done(old(Tables()), wf, fid, SET_EVENT, result, Tables(),
                   if wf in old(status) then Ok(SetEventTxn(old(Tables()), wf, fid, key, value, executorId))
                   else Err(WorkflowNotFound))
      ensures result.Ok? && (wf, fid) !in old(ops) ==>
                && events == old(events)[(wf, key) := value] && history == old(history)[(wf, key, fid) := value]
                && (wf, fid) in ops && ops[(wf, fid)].name == SET_EVENT
    {
      var found := CheckOperationExecution(wf, fid, SET_EVENT);
      match found {
        case Err(e) => return Err(e);
        case Ok(Some(_)) => return Ok(());
        case Ok(None) =>
      }
      PutEvent(wf, fid, key, value);
      RecordOperationResult(wf, fid, UnitRecord(SET_EVENT));
      result := Ok(());
    }

    /** coalesce(max(offset), -1) + 1 over the rows of the stream. */
    method NextStreamOffset(wf: Id, key: string) returns (n: nat)
      ensures n == NextOffset(streams, wf, key)
    {
      n := 0;
      var todo := Offsets(streams, wf, key);
      ghost var all := todo;
      while todo != {}
        invariant todo <= all
        invariant forall o :: o in all && o !in todo ==> o < n
        invariant n > 0 ==> n - 1 in all
      {
        var o :| o in todo;
        if o >= n {
          n := o + 1;
        }
        todo := todo - {o};
      }
    }

    method AppendToStream(wf: Id, fid: nat, key: string, value: Value)
      modifies this`streams
      ensures Tables() == Append(old(Tables()), wf, fid, key, value)
    {
      var n := NextStreamOffset(wf, key);
      streams := streams[(wf, key, n) := StreamRow(value, fid)];
    }

    method WriteStreamFromWorkflow(wf: Id, fid: nat, key: string, value: Value) returns (result: Result<(), LogError>)
      modifies this
      ensures Done(old(Tables()), wf, fid, StreamOpName(value), result, Tables(),
                   if wf in old(status) then Ok(WriteStreamTxn(old(Tables()), wf, fid, key, value, executorId))
                   else Err(WorkflowNotFound))
      ensures result.Ok? && (wf, fid) !in old(ops) ==>
                && streams == old(streams)[(wf, key, NextOffset(old(streams), wf, key)) := StreamRow(value, fid)]
                && (wf, fid) in ops
    {
      var found := CheckOperationExecution(wf, fid, StreamOpName(value));
      match found {
        case Err(e) => return Err(e);
        case Ok(Some(_)) => return Ok(());
        case Ok(None) =>
      }
      AppendToStream(wf, fid, key, value);
      RecordOperationResult(wf, fid, UnitRecord(StreamOpName(value)));
      result := Ok(());
    }
  }

  /** No row but that of `id` has changed, and none has come or gone. */
  ghost predicate OthersSame(before: StatusTable, after: StatusTable, id: Id) {
    after.Keys == before.Keys && forall x :: x in before && x != id ==> after[x] == before[x]
  }

  /** A checkpointed operation: `effect` and its checkpoint are committed if there was no
      checkpoint; nothing changes if there was one, or on an error. */
  ghost predicate Done(before: Db, wf: Id, fid: nat, name: string, result: Result<(), LogError>, after: Db,
                       effect: Result<Db, LogError>)
  {
    match CheckOperation(before, wf, fid, name)
    case Err(e) => result == Err(e) && after == before
    case Ok(Some(_)) => result == Ok(()) && after == before
    case Ok(None) =>
      match effect
      case Err(e) => result == Err(e) && after == before
      case Ok(db) => result == Ok(()) && after == db
  }

  lemma Unmarked(st: StatusTable, w: Worker, now: int, dbNow: int)
    ensures MarkDequeued(st, Ids([]), w, now, dbNow) == st
  {
  }

  /** Calling a checkpointed operation again after its commit, as a retry does when the
      acknowledgement was lost, succeeds and changes nothing. */
  lemma RetryChangesNothing(before: Db, wf: Id, fid: nat, name: string, after: Db, effect: Result<Db, LogError>,
                            result: Result<(), LogError>, again: Db)
    requires Done(before, wf, fid, name, Ok(()), after, effect)
    requires effect.Ok? ==> && CheckOperation(effect.value, wf, fid, name).Ok?
                            && CheckOperation(effect.value, wf, fid, name).value.Some?
    requires Done(after, wf, fid, name, result, again, effect)
    ensures result == Ok(()) && again == after
  {
  }
}
