/** What a poll of a queue promises, said of the rows before and after it: whom it starts, in which
    order, and that it leaves nobody waiting who could be started. */
module PollLaws {
  import opened SystemTables
  import opened WorkflowRows
  import opened QueueLimits

  /** An enqueued row this worker may start. */
  predicate Waits(r: Row, q: Queue, w: Worker) {
    && r.status.Enqueued? && r.queueName == Some(q.name)
    && (w.partition.Some? ==> r.partitionKey == w.partition)
    && (r.appVersion == None || r.appVersion == Some(w.appVersion))
  }

  predicate Runs(r: Row, q: Queue, w: Worker) {
    && r.status.Pending? && r.queueName == Some(q.name)
    && (w.partition.Some? ==> r.partitionKey == w.partition)
  }

  /** Rows of the queue or partition that run. */
  function Running(st: StatusTable, q: Queue, w: Worker): set<Id> {
    set id | id in st && Runs(st[id], q, w)
  }

  /** Those of this worker. */
  function RunningHere(st: StatusTable, q: Queue, w: Worker): set<Id> {
    set id | id in st && Runs(st[id], q, w) && st[id].executorId == Some(w.executorId)
  }

  /** Rows of the queue or partition started after `since`. */
  function StartedAfter(st: StatusTable, q: Queue, w: Worker, since: int): set<Id> {
    set id | id in st && st[id].queueName == Some(q.name) && (w.partition.Some? ==> st[id].partitionKey == w.partition)
             && !st[id].status.Enqueued? && st[id].startedAt.Some? && st[id].startedAt.value > since
  }

  /** A started row: pending, this worker's, stamped, and with a deadline if it has a timeout. */
  predicate StartedAs(before: Row, after: Row, w: Worker, now: int, dbNow: int) {
    && after.status.Pending? && after.executorId == Some(w.executorId) && after.appVersion == Some(w.appVersion)
    && after.startedAt == Some(now)
    && after.deadlineMs ==
         (if before.timeoutMs.Some? && before.deadlineMs.None? then Some(dbNow + before.timeoutMs.value)
          else before.deadlineMs)
    && after == before.(status := after.status, executorId := after.executorId, appVersion := after.appVersion,
                        startedAt := after.startedAt, deadlineMs := after.deadlineMs)
  }

  /** `b` is to be started before `a`. */
  predicate MoreUrgent(b: Row, a: Row, q: Queue) {
    if q.priorityEnabled && b.priority != a.priority then b.priority < a.priority else b.createdAt < a.createdAt
  }

  /** Why a poll that started `n` workflows may leave another one waiting. */
  ghost predicate NoRoom(before: StatusTable, after: StatusTable, q: Queue, w: Worker, now: int, n: nat) {
    || (q.concurrency.Some? && |Running(after, q, w)| >= q.concurrency.value)
    || (q.workerConcurrency.Some? && |RunningHere(after, q, w)| >= q.workerConcurrency.value)
    || (q.workerConcurrency.None? && n >= 100)
    || (q.limiter.Some? && |StartedAfter(before, q, w, now - q.limiter.value.periodMs)| + n >= q.limiter.value.limit)
  }

  ghost predicate StartsOnlyWaiting(before: StatusTable, after: StatusTable, q: Queue, w: Worker, now: int, dbNow: int,
                                    ids: seq<Id>)
  {
    && after.Keys == before.Keys && (forall i, j :: 0 <= i < j < |ids| ==> ids[i] != ids[j])
    && forall id :: id in before ==>
         if id in ids then Waits(before[id], q, w) && StartedAs(before[id], after[id], w, now, dbNow)
         else after[id] == before[id]
  }

  ghost predicate MostUrgentFirst(before: StatusTable, q: Queue, w: Worker, ids: seq<Id>) {
    && (forall id :: id in ids ==> id in before)
    && (forall i, j :: 0 <= i < j < |ids| ==> !MoreUrgent(before[ids[j]], before[ids[i]], q))
    && forall id, x :: id in before && Waits(before[id], q, w) && id !in ids && x in ids ==>
         !MoreUrgent(before[id], before[x], q)
  }

  ghost predicate FairPoll(before: StatusTable, after: StatusTable, q: Queue, w: Worker, now: int, dbNow: int,
                           ids: seq<Id>)
  {
    && StartsOnlyWaiting(before, after, q, w, now, dbNow, ids)
    && MostUrgentFirst(before, q, w, ids)
    && ((exists id :: id in before && Waits(before[id], q, w) && id !in ids) ==>
          NoRoom(before, after, q, w, now, |ids|))
  }

  lemma WaitingIsEligible(st: StatusTable, q: Queue, w: Worker, id: Id)
    ensures id in Eligible(st, q, w) <==> id in st && Waits(st[id], q, w)
  {
  }

  lemma BatchStartsOnlyWaiting(st: StatusTable, q: Queue, w: Worker, now: int, dbNow: int, ids: seq<Id>)
    requires IsBatch(st, q, w, now, ids)
    ensures StartsOnlyWaiting(st, MarkDequeued(st, Ids(ids), w, now, dbNow), q, w, now, dbNow, ids)
  {
    forall id | id in ids
      ensures id in Eligible(st, q, w)
    {
      var i :| 0 <= i < |ids| && ids[i] == id;
    }
  }

  lemma BatchIsUrgentFirst(st: StatusTable, q: Queue, w: Worker, now: int, ids: seq<Id>)
    requires IsBatch(st, q, w, now, ids)
    ensures MostUrgentFirst(st, q, w, ids)
  {
    forall id, x | id in st && Waits(st[id], q, w) && id !in ids && x in ids
      ensures x in st && !MoreUrgent(st[id], st[x], q)
    {
      var i :| 0 <= i < |ids| && ids[i] == x;
      assert id in Eligible(st, q, w);
    }
  }

  lemma {:induction false} DistinctSize(ids: seq<Id>)
    requires Distinct(ids)
    ensures |Ids(ids)| == |ids|
  {
    if ids != [] {
      var rest, last := ids[..|ids| - 1], ids[|ids| - 1];
      DistinctSize(rest);
      assert last !in Ids(rest);
      assert Ids(ids) == Ids(rest) + {last};
    }
  }

  lemma JoinedSize(all: set<Id>, before: set<Id>, ids: seq<Id>)
    requires Distinct(ids) && before !! Ids(ids) && all == before + Ids(ids)
    ensures |all| == |before| + |ids|
  {
    DistinctSize(ids);
  }

  /** Starting `ids`, all enqueued before, adds them to those that run. */
  lemma StartedRun(st: StatusTable, q: Queue, w: Worker, now: int, dbNow: int, ids: seq<Id>)
    requires IsBatch(st, q, w, now, ids)
    ensures var st' := MarkDequeued(st, Ids(ids), w, now, dbNow);
            |Running(st', q, w)| == |PendingIn(st, q, w.partition)| + |ids|
  {
    var st', pending := MarkDequeued(st, Ids(ids), w, now, dbNow), PendingIn(st, q, w.partition);
    assert forall id :: id in Ids(ids) ==> id in Eligible(st, q, w);
    forall id
      ensures id in Running(st', q, w) <==> id in pending || id in Ids(ids)
    {
      assert id in st ==> (id in Ids(ids) ==> Waits(st[id], q, w));
    }
    assert Running(st', q, w) == pending + Ids(ids);
    JoinedSize(Running(st', q, w), pending, ids);
  }

  lemma StartedRunHere(st: StatusTable, q: Queue, w: Worker, now: int, dbNow: int, ids: seq<Id>)
    requires IsBatch(st, q, w, now, ids)
    ensures var st' := MarkDequeued(st, Ids(ids), w, now, dbNow);
            |RunningHere(st', q, w)| == |PendingOn(st, q, w.partition, Some(w.executorId))| + |ids|
  {
    var st', here := MarkDequeued(st, Ids(ids), w, now, dbNow), PendingOn(st, q, w.partition, Some(w.executorId));
    assert forall id :: id in Ids(ids) ==> id in Eligible(st, q, w);
    forall id
      ensures id in RunningHere(st', q, w) <==> id in here || id in Ids(ids)
    {
      assert id in st ==> (id in Ids(ids) ==> Waits(st[id], q, w));
    }
    assert RunningHere(st', q, w) == here + Ids(ids);
    JoinedSize(RunningHere(st', q, w), here, ids);
  }

  lemma MoreAreEligible(st: StatusTable, q: Queue, w: Worker, now: int, ids: seq<Id>, id: Id)
    requires IsBatch(st, q, w, now, ids) && id in st && Waits(st[id], q, w) && id !in ids
    ensures |Eligible(st, q, w)| > |ids|
  {
    DistinctSize(ids);
    assert id !in Ids(ids);
    SubsetSize(Ids(ids) + {id}, Eligible(st, q, w));
  }

  lemma StartedAfterIsRecent(st: StatusTable, q: Queue, w: Worker, since: int)
    ensures StartedAfter(st, q, w, since) == Recent(st, q, w.partition, since)
  {
  }

  /** A poll that does not start all that are eligible has used its slots up, or its limiter. */
  lemma QuotaUsedUp(st: StatusTable, q: Queue, w: Worker, now: int)
    requires Quota(st, q, w, now) < |Eligible(st, q, w)|
    ensures || Quota(st, q, w, now) >= Slots(st, q, w)
            || (q.limiter.Some? && |StartedAfter(st, q, w, now - q.limiter.value.periodMs)| + Quota(st, q, w, now)
                                   >= q.limiter.value.limit)
  {
    if q.limiter.Some? {
      StartedAfterIsRecent(st, q, w, now - q.limiter.value.periodMs);
    }
  }

  lemma SlotsUsedUp(st: StatusTable, q: Queue, w: Worker, n: nat)
    requires n >= Slots(st, q, w)
    ensures || (q.concurrency.Some? && |PendingIn(st, q, w.partition)| + n >= q.concurrency.value)
            || (q.workerConcurrency.Some?
                && |PendingOn(st, q, w.partition, Some(w.executorId))| + n >= q.workerConcurrency.value)
            || (q.workerConcurrency.None? && n >= 100)
  {
  }

  /** A poll conserves work: it leaves a workflow waiting only when a limit is reached. */
  lemma BatchConservesWork(st: StatusTable, q: Queue, w: Worker, now: int, dbNow: int, ids: seq<Id>, id: Id)
    requires IsBatch(st, q, w, now, ids) && id in st && Waits(st[id], q, w) && id !in ids
    ensures NoRoom(st, MarkDequeued(st, Ids(ids), w, now, dbNow), q, w, now, |ids|)
  {
    StartedRun(st, q, w, now, dbNow, ids);
    StartedRunHere(st, q, w, now, dbNow, ids);
    MoreAreEligible(st, q, w, now, ids, id);
    QuotaUsedUp(st, q, w, now);
    if |ids| >= Slots(st, q, w) {
      SlotsUsedUp(st, q, w, |ids|);
    }
  }

  /** The batch the specification of a poll asks for is what the poll promises. */
  lemma BatchIsFair(st: StatusTable, q: Queue, w: Worker, now: int, dbNow: int, ids: seq<Id>)
    requires IsBatch(st, q, w, now, ids)
    ensures FairPoll(st, MarkDequeued(st, Ids(ids), w, now, dbNow), q, w, now, dbNow, ids)
  {
    BatchStartsOnlyWaiting(st, q, w, now, dbNow, ids);
    BatchIsUrgentFirst(st, q, w, now, ids);
    forall id | id in st && Waits(st[id], q, w) && id !in ids
      ensures NoRoom(st, MarkDequeued(st, Ids(ids), w, now, dbNow), q, w, now, |ids|)
    {
      BatchConservesWork(st, q, w, now, dbNow, ids, id);
    }
  }
}
