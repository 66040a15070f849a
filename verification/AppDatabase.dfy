/** The application database object: transaction records, and with them the effects of the
    transaction bodies, which commit in the same transactions. */
module AppDatabase {
  import opened SystemTables
  import opened OperationLog
  import opened Transactions
  import GarbageCollection
  import SystemDatabase
  import Children
  import WorkflowRows

  datatype TxConflict = WorkflowConflict

  class AppDatabase {
    var txs: map<Key, TxRow>
    var createdAt: map<Key, int>
    ghost var effects: map<Key, nat>

    ghost predicate Valid()
      reads this
    {
      txs.Keys == createdAt.Keys
    }

    constructor ()
      ensures Valid() && txs == map[] && effects == map[]
    {
      txs, createdAt, effects := map[], map[], map[];
    }

    method CheckTransactionExecution(k: Key, name: string) returns (r: Result<Option<TxRow>, LogError>)
      ensures r == if k !in txs then Ok(None)
                   else if txs[k].name != name then Err(UnexpectedStep)
                   else Ok(Some(txs[k]))
    {
      if k !in txs {
        return Ok(None);
      }
      var row := txs[k];
      r := if row.name != name then Err(UnexpectedStep) else Ok(Some(row));
    }

    /** Commits the body together with its output. The primary key refuses a second record. */
    method RecordTransactionOutput(k: Key, name: string, v: Value, now: int) returns (r: Result<(), TxConflict>)
      requires Valid()
      modifies this
      ensures Valid() && (r.Err? <==> k in old(txs))
      ensures r.Err? ==> txs == old(txs) && createdAt == old(createdAt) && effects == old(effects)
      ensures r.Ok? ==>
                && txs == old(txs)[k := TxRow(name, Some(v), None)] && createdAt == old(createdAt)[k := now]
                && effects == old(effects)[k := (if k in old(effects) then old(effects)[k] else 0) + 1]
    {
      if k in txs {
        return Err(WorkflowConflict);
      }
      txs, createdAt := txs[k := TxRow(name, Some(v), None)], createdAt[k := now];
      effects := effects[k := (if k in effects then effects[k] else 0) + 1];
      r := Ok(());
    }

    /** Records an error in a transaction of its own. */
    method RecordTransactionError(k: Key, name: string, e: Value, now: int) returns (r: Result<(), TxConflict>)
      requires Valid()
      modifies this
      ensures Valid() && (r.Err? <==> k in old(txs)) && effects == old(effects)
      ensures r.Err? ==> txs == old(txs) && createdAt == old(createdAt)
      ensures r.Ok? ==> txs == old(txs)[k := TxRow(name, None, Some(e))] && createdAt == old(createdAt)[k := now]
    {
      if k in txs {
        return Err(WorkflowConflict);
      }
      txs, createdAt := txs[k := TxRow(name, None, Some(e))], createdAt[k := now];
      r := Ok(());
    }

    /** Deletes the records before the cutoff, except those of the workflows reported. */
    method GarbageCollect(cutoff: int, remaining: set<Id>)
      requires Valid()
      modifies this`txs, this`createdAt
      ensures Valid() && createdAt == GarbageCollection.CollectTransactions(old(createdAt), cutoff, remaining)
      ensures forall k :: k in txs <==> k in old(txs) && (old(createdAt)[k] >= cutoff || k.0 in remaining)
      ensures forall k :: k in txs ==> txs[k] == old(txs)[k] && createdAt[k] == old(createdAt)[k]
    {
      txs := map k | k in txs && (createdAt[k] >= cutoff || k.0 in remaining) :: txs[k];
      createdAt := GarbageCollection.CollectTransactions(createdAt, cutoff, remaining);
    }

    method DeleteTransactionOutputs(ids: set<Id>)
      requires Valid()
      modifies this`txs, this`createdAt
      ensures Valid()
      ensures txs == map k | k in old(txs) && k.0 !in ids :: old(txs)[k]
      ensures createdAt == map k | k in old(createdAt) && k.0 !in ids :: old(createdAt)[k]
    {
      txs := map k | k in txs && k.0 !in ids :: txs[k];
      createdAt := map k | k in createdAt && k.0 !in ids :: createdAt[k];
    }
  }

  /** Collects both databases, one after the other, up to the effective cutoff `c`. The workflows
      before it that are neither enqueued nor pending go, and no transaction record before it
      is left of them; a workflow still there keeps every record that is not older than itself. When
      the first collection fails, or there is no cutoff, nothing changes. */
  method GarbageCollect(sys: SystemDatabase.SystemDatabase, app: AppDatabase,
                        cutoff: Option<int>, rowsThreshold: Option<int>)
    returns (r: Result<(), GarbageCollection.CollectError>, ghost c: Option<int>)
    requires app.Valid()
    modifies sys, app`txs, app`createdAt
    ensures app.Valid()
    ensures r.Err? || (cutoff.None? && rowsThreshold.None?) ==> c.None?
    ensures cutoff.Some? && r.Ok? ==> c.Some? && c.value >= cutoff.value
    ensures c.None? ==> sys.Tables() == old(sys.Tables()) && app.createdAt == old(app.createdAt)
    ensures c.Some? ==> GarbageCollection.CollectedUpTo(old(sys.status), sys.status, c.value)
    ensures c.Some? ==> forall k :: k in app.createdAt && k.0 !in sys.status ==> app.createdAt[k] >= c.value
    ensures forall k :: k in old(app.txs) && k.0 in sys.status && old(app.createdAt)[k] >= sys.status[k.0].createdAt ==>
              k in app.txs && app.txs[k] == old(app.txs)[k]
  {
    c := None;
    if cutoff.None? && rowsThreshold.None? {
      return Ok(()), None;
    }
    var result := sys.GarbageCollect(cutoff, rowsThreshold);
    match result {
      case Err(e) => return Err(e), None;
      case Ok(None) =>
      case Ok(Some((effective, remaining))) =>
        app.GarbageCollect(effective, remaining);
        c := Some(effective);
    }
    r := Ok(());
  }

  /** Deletes a workflow, and with `deleteChildren` all it reaches by child edges, from both
      databases. */
  method DeleteWorkflow(sys: SystemDatabase.SystemDatabase, app: AppDatabase, wf: Id,
                        deleteChildren: bool) returns (ghost gone: set<Id>)
    requires app.Valid()
    modifies sys, app`txs, app`createdAt
    ensures app.Valid()
    ensures forall id :: id in gone <==> id == wf || (deleteChildren && Children.Reachable(old(sys.ops), wf, id))
    ensures sys.Tables() == GarbageCollection.Cascade(old(sys.Tables()),
                                                      WorkflowRows.DeleteWorkflows(old(sys.status), gone))
    ensures forall id :: id in sys.status <==> id in old(sys.status) && id !in gone
    ensures forall id :: id in sys.status ==> sys.status[id] == old(sys.status)[id]
    ensures forall k :: k in app.txs <==> k in old(app.txs) && k.0 !in gone
  {
    var ids := {wf};
    if deleteChildren {
      var children := Children.GetWorkflowChildren(sys.ops, wf);
      ids := ids + children;
    }
    gone := ids;
    sys.DeleteWorkflows(ids);
    app.DeleteTransactionOutputs(ids);
  }
}
