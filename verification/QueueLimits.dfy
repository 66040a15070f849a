/** The limits of a queue hold in every reachable state, not only when a worker polls. */
module QueueLimits {
  import opened SystemTables
  import opened WorkflowRows
  import opened Lifecycle

  // ----- counting -----

  lemma {:induction false} SubsetSize<T>(a: set<T>, b: set<T>)
    requires a <= b
    ensures |a| <= |b|
    decreases |a|
  {
    if x :| x in a {
      SubsetSize(a - {x}, b - {x});
    }
  }

  lemma UnionSize<T>(a: set<T>, b: set<T>)
    ensures |a + b| <= |a| + |b|
  {
  }

  function Ids(ids: seq<Id>): (s: set<Id>) {
    set i | 0 <= i < |ids| :: ids[i]
  }

  lemma IdsSnoc(ids: seq<Id>, id: Id)
    ensures Ids(ids + [id]) == Ids(ids) + {id}
  {
    assert forall i :: 0 <= i < |ids| ==> (ids + [id])[i] == ids[i];
    assert (ids + [id])[|ids|] == id;
  }

  lemma {:induction false} IdsSize(ids: seq<Id>)
    ensures |Ids(ids)| <= |ids|
  {
    if ids != [] {
      var rest := ids[..|ids| - 1];
      IdsSize(rest);
      assert Ids(ids) == Ids(rest) + {ids[|ids| - 1]};
    }
  }

  /** If a set grows by taking at most `n` ids into a counted set, it is bounded by the sum. */
  lemma GrownSize(after: set<Id>, counted: set<Id>, ids: seq<Id>)
    requires after <= counted + Ids(ids)
    ensures |after| <= |counted| + |ids|
  {
    SubsetSize(after, counted + Ids(ids));
    UnionSize(counted, Ids(ids));
    IdsSize(ids);
  }

  // ----- rate limit -----

  /** Rows of a queue, or of one partition, started in the window (t - period, t]. */
  function Window(st: StatusTable, q: Queue, partition: Option<string>, t: int, period: int): set<Id> {
    set id | id in st && InScope(st[id], q, partition)
             && st[id].startedAt.Some? && t - period < st[id].startedAt.value <= t
  }

  ghost predicate RateOk(st: StatusTable, q: Queue, partition: Option<string>, t: int) {
    q.limiter.Some? ==> |Window(st, q, partition, t, q.limiter.value.periodMs)| <= Max(0, q.limiter.value.limit)
  }

  /** No other transaction stamps a start. */
  lemma OtherEventsShrinkWindow(queues: map<string, Queue>, st: StatusTable, e: Event, st': StatusTable,
                                q: Queue, partition: Option<string>, t: int, period: int)
    requires Next(queues, st, e, st') && !e.DequeueE?
    ensures Window(st', q, partition, t, period) <= Window(st, q, partition, t, period)
  {
  }

  /** A poll stamps rows with the worker's clock; a poll of another queue or partition, or one
      whose clock is outside the window, adds nothing to it. */
  lemma PollElsewhereKeepsWindow(queues: map<string, Queue>, st: StatusTable, e: Event, st': StatusTable,
                                 q: Queue, partition: Option<string>, t: int, period: int)
    requires Next(queues, st, e, st') && e.DequeueE?
    requires q.name in queues && queues[q.name] == q && (partition.Some? <==> q.partitioned)
    requires e.queue.name != q.name || e.worker.partition != partition || !(t - period < e.now <= t)
    ensures Window(st', q, partition, t, period) <= Window(st, q, partition, t, period)
  {
  }

  /** A poll whose clock is in the window counts everything in it: rows of the window started
      after `now - period`, whichever worker's clock stamped them. */
  lemma WindowIsCounted(st: StatusTable, q: Queue, partition: Option<string>, t: int, period: int, now: int)
    requires RowsOk(st) && t - period < now <= t
    ensures Window(st, q, partition, t, period) <= Recent(st, q, partition, now - period)
  {
  }

  lemma PollGrowsWindow(st: StatusTable, ids: seq<Id>, w: Worker, now: int, dbNow: int,
                        q: Queue, partition: Option<string>, t: int, period: int)
    ensures Window(MarkDequeued(st, Ids(ids), w, now, dbNow), q, partition, t, period)
            <= Window(st, q, partition, t, period) + Ids(ids)
  {
  }

  /** A poll that takes anything stays within the limit with what it counted. */
  lemma QuotaWithinLimit(st: StatusTable, q: Queue, w: Worker, now: int)
    requires q.limiter.Some?
    ensures Quota(st, q, w, now) <= 0
            || |Recent(st, q, w.partition, now - q.limiter.value.periodMs)| + Quota(st, q, w, now)
               <= q.limiter.value.limit
  {
  }

  lemma PollInWindow(st: StatusTable, q: Queue, w: Worker, now: int, dbNow: int, ids: seq<Id>, t: int)
    requires RowsOk(st) && |ids| == Quota(st, q, w, now) && q.limiter.Some?
    requires t - q.limiter.value.periodMs < now <= t
    requires RateOk(st, q, w.partition, t)
    ensures RateOk(MarkDequeued(st, Ids(ids), w, now, dbNow), q, w.partition, t)
  {
    var period := q.limiter.value.periodMs;
    var before := Window(st, q, w.partition, t, period);
    var after := Window(MarkDequeued(st, Ids(ids), w, now, dbNow), q, w.partition, t, period);
    WindowIsCounted(st, q, w.partition, t, period, now);
    PollGrowsWindow(st, ids, w, now, dbNow, q, w.partition, t, period);
    QuotaWithinLimit(st, q, w, now);
    if ids == [] {
      GrownSize(after, before, ids);
    } else {
      GrownSize(after, Recent(st, q, w.partition, now - period), ids);
    }
  }

  lemma NextKeepsRate(queues: map<string, Queue>, st: StatusTable, e: Event, st': StatusTable,
                      q: Queue, partition: Option<string>, t: int)
    requires RowsOk(st) && Next(queues, st, e, st')
    requires q.name in queues && queues[q.name] == q && (partition.Some? <==> q.partitioned)
    requires RateOk(st, q, partition, t)
    ensures RateOk(st', q, partition, t)
  {
    if q.limiter.Some? {
      var period := q.limiter.value.periodMs;
      if !e.DequeueE? {
        OtherEventsShrinkWindow(queues, st, e, st', q, partition, t, period);
      } else if e.queue.name != q.name || e.worker.partition != partition || !(t - period < e.now <= t) {
        PollElsewhereKeepsWindow(queues, st, e, st', q, partition, t, period);
      }
      if e.DequeueE? && e.queue.name == q.name && e.worker.partition == partition && t - period < e.now <= t {
        assert e.queue == q;
        PollInWindow(st, q, e.worker, e.now, e.dbNow, e.ids, t);
      } else {
        SubsetSize(Window(st', q, partition, t, period), Window(st, q, partition, t, period));
      }
    }
  }

  /** Sliding-window rate limit. In every reachable state and for every `t`, at most `limit` rows
      of a limited queue, or of each of its partitions, started in the window of one period
      that ends at `t`. Workers' clocks need not agree or move forward. */
  lemma {:induction false} RateLimitHolds(queues: map<string, Queue>, states: seq<StatusTable>, events: seq<Event>,
                                          i: nat, q: Queue, partition: Option<string>, t: int)
    requires Run(queues, states, events) && i < |states|
    requires q.name in queues && queues[q.name] == q && (partition.Some? <==> q.partitioned) && q.limiter.Some?
    ensures |Window(states[i], q, partition, t, q.limiter.value.periodMs)| <= Max(0, q.limiter.value.limit)
  {
    if i > 0 {
      RateLimitHolds(queues, states, events, i - 1, q, partition, t);
      RunKeepsRows(queues, states, events, i - 1);
      assert StepAt(queues, states, events, i - 1);
      NextKeepsRate(queues, states[i - 1], events[i - 1], states[i], q, partition, t);
    } else {
      assert Window(states[0], q, partition, t, q.limiter.value.periodMs) == {};
    }
  }

  // ----- global concurrency -----

  /** Only a poll makes queued workflows pending, and only those of its own queue and partition. */
  lemma OtherEventsShrinkPending(queues: map<string, Queue>, st: StatusTable, e: Event, st': StatusTable,
                                 q: Queue, partition: Option<string>)
    requires Next(queues, st, e, st')
    requires q.name in queues && queues[q.name] == q && (partition.Some? <==> q.partitioned)
    requires !e.DequeueE? || e.queue.name != q.name || e.worker.partition != partition
    ensures PendingIn(st', q, partition) <= PendingIn(st, q, partition)
  {
  }

  lemma NextKeepsConcurrency(queues: map<string, Queue>, st: StatusTable, e: Event, st': StatusTable,
                             q: Queue, partition: Option<string>)
    requires Next(queues, st, e, st')
    requires q.name in queues && queues[q.name] == q && (partition.Some? <==> q.partitioned) && q.concurrency.Some?
    requires |PendingIn(st, q, partition)| <= Max(0, q.concurrency.value)
    ensures |PendingIn(st', q, partition)| <= Max(0, q.concurrency.value)
  {
    var before, after := PendingIn(st, q, partition), PendingIn(st', q, partition);
    if e.DequeueE? && e.queue.name == q.name && e.worker.partition == partition {
      assert after <= before + Ids(e.ids);
      GrownSize(after, before, e.ids);
    } else {
      OtherEventsShrinkPending(queues, st, e, st', q, partition);
      SubsetSize(after, before);
    }
  }

  /** Global concurrency. In every reachable state at most `concurrency` workflows of a queue,
      or of each of its partitions, are pending. */
  lemma {:induction false} ConcurrencyHolds(queues: map<string, Queue>, states: seq<StatusTable>, events: seq<Event>,
                                            i: nat, q: Queue, partition: Option<string>)
    requires Run(queues, states, events) && i < |states|
    requires q.name in queues && queues[q.name] == q && (partition.Some? <==> q.partitioned) && q.concurrency.Some?
    ensures |PendingIn(states[i], q, partition)| <= Max(0, q.concurrency.value)
  {
    if i > 0 {
      ConcurrencyHolds(queues, states, events, i - 1, q, partition);
      assert StepAt(queues, states, events, i - 1);
      NextKeepsConcurrency(queues, states[i - 1], events[i - 1], states[i], q, partition);
    } else {
      assert PendingIn(states[0], q, partition) == {};
    }
  }

  /** One poll also respects the worker's own limit. */
  lemma PollKeepsWorkerLimit(st: StatusTable, q: Queue, w: Worker, now: int, dbNow: int, ids: seq<Id>)
    requires IsBatch(st, q, w, now, ids) && q.workerConcurrency.Some?
    ensures var st' := MarkDequeued(st, Ids(ids), w, now, dbNow);
            |PendingOn(st', q, w.partition, Some(w.executorId))|
              <= Max(q.workerConcurrency.value, |PendingOn(st, q, w.partition, Some(w.executorId))|)
  {
    var st' := MarkDequeued(st, Ids(ids), w, now, dbNow);
    var before := PendingOn(st, q, w.partition, Some(w.executorId));
    var after := PendingOn(st', q, w.partition, Some(w.executorId));
    assert after <= before + Ids(ids);
    GrownSize(after, before, ids);
  }
}
