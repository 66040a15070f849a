/** Polling a queue: `start_queued_workflows`, whose two queries and update loop make one batch. */
module Dequeue {
  import opened SystemTables
  import opened WorkflowRows

  // ----- SELECT executor_id, count(*) ... GROUP BY executor_id -----

  function Executors(st: StatusTable, q: Queue, partition: Option<string>): set<Option<string>> {
    set id | id in PendingIn(st, q, partition) :: st[id].executorId
  }

  function PendingByExecutor(st: StatusTable, q: Queue, partition: Option<string>): map<Option<string>, nat> {
    map x | x in Executors(st, q, partition) :: |PendingOn(st, q, partition, x)|
  }

  function PendingOnAny(st: StatusTable, q: Queue, partition: Option<string>, xs: set<Option<string>>): set<Id> {
    set id | id in PendingIn(st, q, partition) && st[id].executorId in xs
  }

  lemma GroupAdds(st: StatusTable, q: Queue, partition: Option<string>, xs: set<Option<string>>, x: Option<string>)
    requires x !in xs
    ensures |PendingOnAny(st, q, partition, xs + {x})|
            == |PendingOnAny(st, q, partition, xs)| + |PendingOn(st, q, partition, x)|
  {
    var a, b := PendingOnAny(st, q, partition, xs), PendingOn(st, q, partition, x);
    assert PendingOnAny(st, q, partition, xs + {x}) == a + b && a !! b;
  }

  lemma AllGroups(st: StatusTable, q: Queue, partition: Option<string>)
    ensures PendingOnAny(st, q, partition, Executors(st, q, partition)) == PendingIn(st, q, partition)
  {
  }

  ghost predicate Groups(groups: map<Option<string>, nat>, st: StatusTable, q: Queue, partition: Option<string>) {
    && groups.Keys == Executors(st, q, partition)
    && forall x :: x in groups ==> groups[x] == |PendingOn(st, q, partition, x)|
  }

  /** The grouped counts sum to the number of pending workflows. */
  method SumOfGroups(groups: map<Option<string>, nat>, ghost st: StatusTable, ghost q: Queue,
                     ghost partition: Option<string>)
    returns (total: nat)
    requires Groups(groups, st, q, partition)
    ensures total == |PendingIn(st, q, partition)|
  {
    total := 0;
    ghost var seen: set<Option<string>> := {};
    assert PendingOnAny(st, q, partition, seen) == {};
    var todo := groups.Keys;
    while todo != {}
      invariant seen + todo == groups.Keys && seen !! todo
      invariant total == |PendingOnAny(st, q, partition, seen)|
    {
      var x :| x in todo;
      GroupAdds(st, q, partition, seen, x);
      total := total + groups[x];
      seen := seen + {x};
      todo := todo - {x};
    }
    assert seen == groups.Keys;
    AllGroups(st, q, partition);
  }

  lemma LocalCount(st: StatusTable, q: Queue, partition: Option<string>, x: Option<string>)
    ensures x !in Executors(st, q, partition) ==> |PendingOn(st, q, partition, x)| == 0
  {
    assert forall id :: id in PendingIn(st, q, partition) ==> st[id].executorId in Executors(st, q, partition);
    assert forall id :: id in PendingOn(st, q, partition, x) ==> id in PendingIn(st, q, partition);
    assert x !in Executors(st, q, partition) ==> PendingOn(st, q, partition, x) == {};
  }

  /** The number of workflows the concurrency limits allow, from the grouped counts. */
  method FreeSlots(st: StatusTable, q: Queue, w: Worker) returns (maxTasks: int)
    ensures maxTasks == Slots(st, q, w)
  {
    maxTasks := BATCH;
    if q.workerConcurrency.Some? || q.concurrency.Some? {
      var groups := PendingByExecutor(st, q, w.partition);
      if q.workerConcurrency.Some? {
        var local := if Some(w.executorId) in groups then groups[Some(w.executorId)] else 0;
        LocalCount(st, q, w.partition, Some(w.executorId));
        maxTasks := Max(0, q.workerConcurrency.value - local);
      }
      if q.concurrency.Some? {
        var total := SumOfGroups(groups, st, q, w.partition);
        maxTasks := Min(maxTasks, Max(0, q.concurrency.value - total));
      }
    }
  }

  // ----- ... ORDER BY priority, created_at LIMIT n -----

  /** A row that no other precedes. */
  method FirstInOrder(st: StatusTable, q: Queue, ids: set<Id>) returns (first: Id)
    requires ids != {} && ids <= st.Keys
    ensures first in ids && forall y :: y in ids ==> !Earlier(st[y], st[first], q)
  {
    first :| first in ids;
    var todo := ids - {first};
    while todo != {}
      invariant first in ids && todo <= ids
      invariant forall y :: y in ids && y !in todo ==> !Earlier(st[y], st[first], q)
    {
      var x :| x in todo;
      if Earlier(st[x], st[first], q) {
        first := x;
      }
      todo := todo - {x};
    }
  }

  ghost predicate Ahead(st: StatusTable, q: Queue, rows: seq<Id>, rest: set<Id>)
    requires (forall i :: 0 <= i < |rows| ==> rows[i] in st) && rest <= st.Keys
  {
    forall y, i :: y in rest && 0 <= i < |rows| ==> !Earlier(st[y], st[rows[i]], q)
  }

  method OrderedLimit(st: StatusTable, q: Queue, ids: set<Id>, limit: int) returns (rows: seq<Id>,
                      ghost rest: set<Id>)
    requires ids <= st.Keys
    ensures |rows| == Min(|ids|, Max(0, limit))
    ensures Distinct(rows) && InQueueOrder(st, q, rows)
    ensures rest <= ids && Ahead(st, q, rows, rest)
    ensures forall id :: id in ids <==> id in rows || id in rest
    ensures forall id :: id in rest ==> id !in rows
  {
    rows := [];
    var todo := ids;
    while |rows| < limit && todo != {}
      invariant todo <= ids && |rows| + |todo| == |ids| && |rows| <= Max(0, limit)
      invariant Distinct(rows) && InQueueOrder(st, q, rows) && Ahead(st, q, rows, todo)
      invariant forall id :: id in ids <==> id in rows || id in todo
      invariant forall id :: id in todo ==> id !in rows
      decreases todo
    {
      var x := FirstInOrder(st, q, todo);
      rows := rows + [x];
      todo := todo - {x};
    }
    rest := todo;
  }

  // ----- the batch -----

  /** A prefix of the ordered rows is a batch when it has the quota's length. */
  lemma PrefixIsBatch(st: StatusTable, q: Queue, w: Worker, now: int, rows: seq<Id>, rest: set<Id>, n: nat)
    requires n <= |rows| && n == Quota(st, q, w, now)
    requires Distinct(rows) && InQueueOrder(st, q, rows)
    requires rest <= st.Keys && Ahead(st, q, rows, rest)
    requires forall id :: id in Eligible(st, q, w) <==> id in rows || id in rest
    ensures IsBatch(st, q, w, now, rows[..n])
  {
  }
}
