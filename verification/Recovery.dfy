/** Recovery of the workflows an executor left pending. */
module Recovery {
  import opened SystemTables
  import opened WorkflowRows
  import SystemDatabase

  function PendingWorkflows(st: StatusTable, executor: string, appVersion: string): set<Id> {
    set id | id in st && st[id].status.Pending? && st[id].executorId == Some(executor)
             && st[id].appVersion == Some(appVersion)
  }

  /** Pending, on that executor and of that application version. */
  predicate LeftPending(r: Row, executor: string, appVersion: string) {
    r.status.Pending? && r.executorId == Some(executor) && r.appVersion == Some(appVersion)
  }

  /** What `execute_workflow_by_id` finds out about a workflow: its inputs cannot be read or are not
      valid, its function is not registered here, or it can be started. */
  datatype Executable = Unreadable(e: Value) | Unregistered | Registered(maxAttempts: Option<int>)

  function Restarted(r: Row, me: Option<string>, maxAttempts: Option<int>): Row {
    var again := r.(recoveryAttempts := r.recoveryAttempts + 1, executorId := me);
    if maxAttempts.Some? && again.recoveryAttempts > maxAttempts.value + 1 then
      again.(status := MaxRecoveryAttemptsExceeded, dedupId := None, startedAt := None, queueName := None)
    else again
  }

  /** What one recovery does to the row of a pending workflow. A queued one goes back to its queue;
      another fails, is left, or is started again until it has had its attempts. */
  function Recovered(r: Row, me: Option<string>, how: Executable): Row {
    if r.queueName.Some? then r.(status := Enqueued, startedAt := None)
    else
      match how
      case Unreadable(e) => r.(status := Error, output := None, error := Some(e), dedupId := None)
      case Unregistered => r
      case Registered(maxAttempts) => Restarted(r, me, maxAttempts)
  }

  /** No pending workflow is forgotten: it waits on its queue again, or has failed, or is pending under
      this executor with one more attempt used, or had none left. Only an unregistered function
      leaves it as it is. */
  predicate TakenCareOf(before: Row, after: Row, me: Option<string>, how: Executable) {
    && (after.name, after.inputs, after.createdAt) == (before.name, before.inputs, before.createdAt)
    && (before.queueName.Some? ==>
          && after.status.Enqueued? && after.startedAt.None? && after.queueName == before.queueName
          && after.recoveryAttempts == before.recoveryAttempts)
    && (before.queueName.None? && how.Unreadable? ==> after.status.Error? && after.error == Some(how.e))
    && (before.queueName.None? && how.Unregistered? ==> after == before)
    && (before.queueName.None? && how.Registered? ==>
          && after.recoveryAttempts == before.recoveryAttempts + 1 && after.executorId == me
          && (after.status.Pending? || after.status.MaxRecoveryAttemptsExceeded?)
          && (after.status.Pending? <==>
                how.maxAttempts.Some? ==> before.recoveryAttempts <= how.maxAttempts.value))
  }

  lemma RecoveredIsTakenCareOf(before: StatusTable, after: StatusTable, executor: string, appVersion: string,
                               me: Option<string>, how: Id -> Executable)
    requires after.Keys == before.Keys
    requires forall id :: id in before && LeftPending(before[id], executor, appVersion) ==>
               after[id] == Recovered(before[id], me, how(id))
    ensures forall id :: id in after && LeftPending(before[id], executor, appVersion) ==>
              TakenCareOf(before[id], after[id], me, how(id))
  {
  }

  predicate Starts(before: Row, after: Row, how: Executable) {
    before.queueName.None? && how.Registered? && after.status.Pending?
  }

  /** What `execute_workflow_by_id` asks for. */
  function RestartRequest(id: Id, r: Row, me: Option<string>): Request {
    Request(id, if r.queueName.None? then Pending else Enqueued, r.name, r.className, r.configName, r.queueName,
            None, None, 0, me, r.appVersion, r.timeoutMs, r.deadlineMs, r.inputs)
  }

  /** `_recover_workflow`, for a pending workflow and a call id nobody has. Tells whether the
      workflow was handed to an executor thread. */
  method RecoverWorkflow(sys: SystemDatabase.SystemDatabase, id: Id, me: Option<string>, xid: string, how: Executable)
    returns (started: bool)
    requires id in sys.status && sys.status[id].status.Pending? && sys.status[id].ownerXid != Some(xid)
    modifies sys`status
    ensures sys.status == old(sys.status)[id := Recovered(old(sys.status)[id], me, how)]
    ensures started <==> Starts(old(sys.status)[id], sys.status[id], how)
  {
    var r := sys.status[id];
    if r.queueName.Some? {
      var cleared := sys.ClearQueueAssignment(id);
      if cleared {
        return false;
      }
    }
    match how {
      case Unreadable(e) =>
        sys.UpdateWorkflowOutcome(id, Failed(e));
        started := false;
      case Unregistered =>
        started := false;
      case Registered(maxAttempts) =>
        var caller := Caller(Some(xid), true, false, maxAttempts);
        var result := sys.InitWorkflow(RestartRequest(id, r, me), caller, r.createdAt);
        started := result.Ok?;
    }
  }

  /** `recover_pending_workflows` for one executor. Every workflow it left pending is recovered
      once, and no other row changes. */
  method RecoverPendingWorkflows(sys: SystemDatabase.SystemDatabase, executor: string, appVersion: string,
                                 me: Option<string>, xid: string, how: Id -> Executable)
    returns (started: set<Id>)
    requires forall id :: id in sys.status ==> sys.status[id].ownerXid != Some(xid)
    modifies sys`status
    ensures sys.status.Keys == old(sys.status).Keys
    ensures forall id :: id in sys.status ==>
              sys.status[id] == if LeftPending(old(sys.status)[id], executor, appVersion)
                                then Recovered(old(sys.status)[id], me, how(id)) else old(sys.status)[id]
    ensures forall id :: id in sys.status && LeftPending(old(sys.status)[id], executor, appVersion) ==>
              TakenCareOf(old(sys.status)[id], sys.status[id], me, how(id))
    ensures forall id :: id in started <==>
              && id in sys.status && LeftPending(old(sys.status)[id], executor, appVersion)
              && old(sys.status)[id].queueName.None? && how(id).Registered? && sys.status[id].status.Pending?
  {
    started := {};
    ghost var before := sys.status;
    var todo := PendingWorkflows(sys.status, executor, appVersion);
    ghost var pending := todo;
    while todo != {}
      invariant todo <= pending && sys.status.Keys == before.Keys
      invariant forall id :: id in before ==>
                  sys.status[id] == if id in pending && id !in todo then Recovered(before[id], me, how(id))
                                    else before[id]
      invariant started == set id | id in pending && id !in todo && Starts(before[id], sys.status[id], how(id))
    {
      var id :| id in todo;
      var s := RecoverWorkflow(sys, id, me, xid, how(id));
      if s {
        started := started + {id};
      }
      todo := todo - {id};
    }
    RecoveredIsTakenCareOf(before, sys.status, executor, appVersion, me, how);
  }
}
