/** Forking a workflow at an operation: the copy is the original as it was just before that
    operation first started. */
module Fork {
  import opened SystemTables
  import opened Kernel
  import opened Replay
  import opened Past
  import opened Outputs
  import opened WorkflowRows

  // ----- the transaction -----

  datatype ForkError = OriginalNotFound | ForkedIdTaken

  /** Function id `f` is the last one below `bound` at which `key` was set. */
  predicate LastBelow(history: map<(Id, string, nat), Value>, wf: Id, key: string, f: nat, bound: int) {
    && f < bound && (wf, key, f) in history
    && forall g: nat :: f < g < bound ==> (wf, key, g) !in history
  }

  function CopiedOps(ops: OpTable, wf: Id, to: Id, bound: int): OpTable {
    map k | k in ops && k.0 == wf && k.1 < bound :: (to, k.1) := ops[k]
  }

  function CopiedHistory(history: map<(Id, string, nat), Value>, wf: Id, to: Id, bound: int)
    : map<(Id, string, nat), Value>
  {
    map k | k in history && k.0 == wf && k.2 < bound :: (to, k.1, k.2) := history[k]
  }

  function CopiedEvents(history: map<(Id, string, nat), Value>, wf: Id, to: Id, bound: int)
    : map<(Id, string), Value>
  {
    map k | k in history && k.0 == wf && LastBelow(history, wf, k.1, k.2, bound) :: (to, k.1) := history[k]
  }

  function CopiedStreams(streams: StreamTable, wf: Id, to: Id, bound: int): StreamTable {
    map k | k in streams && k.0 == wf && streams[k].fid < bound :: (to, k.1, k.2) := streams[k]
  }

  // The INSERT ... SELECT statements, one for each table.

  function CopyOps(db: Db, wf: Id, to: Id, start: int): Db {
    db.(ops := db.ops + CopiedOps(db.ops, wf, to, start))
  }

  function CopyHistory(db: Db, wf: Id, to: Id, start: int): Db {
    db.(history := db.history + CopiedHistory(db.history, wf, to, start))
  }

  function CopyEvents(db: Db, wf: Id, to: Id, start: int): Db {
    db.(events := db.events + CopiedEvents(db.history, wf, to, start))
  }

  function CopyStreams(db: Db, wf: Id, to: Id, start: int): Db {
    db.(streams := db.streams + CopiedStreams(db.streams, wf, to, start))
  }

  function CopyTables(db: Db, wf: Id, to: Id, start: int): Db {
    CopyStreams(CopyEvents(CopyHistory(CopyOps(db, wf, to, start), wf, to, start), wf, to, start), wf, to, start)
  }

  /** `fork_workflow`. The new row waits on the internal queue; the histories below `start` are
      copied when there can be any. */
  function ForkWorkflow(db: Db, wf: Id, to: Id, start: int, appVersion: Option<string>, now: int)
    : Result<Db, ForkError>
  {
    if wf !in db.status then Err(OriginalNotFound)
    else if to in db.status then Err(ForkedIdTaken)
    else
      var row := db.(status := db.status[to := ForkRow(db.status[wf], wf, appVersion, now)]);
      Ok(if start <= 1 then row else CopyTables(row, wf, to, start))
  }

  // ----- fidelity -----

  /** Foreign keys: only workflows with a status row have rows elsewhere. */
  ghost predicate NoRows(db: Db, wf: Id) {
    && (forall f :: (wf, f) !in db.ops)
    && (forall k, f :: (wf, k, f) !in db.history)
    && (forall k :: (wf, k) !in db.events)
    && (forall k, o :: (wf, k, o) !in db.streams)
  }

  ghost predicate OpsCopied(ops: OpTable, to: Id, ops0: OpTable, wf: Id) {
    && (forall f :: (to, f) in ops <==> (wf, f) in ops0)
    && (forall f :: (wf, f) in ops0 ==> ops[(to, f)] == ops0[(wf, f)])
  }

  ghost predicate HistoryCopied(history: map<(Id, string, nat), Value>, to: Id,
                                history0: map<(Id, string, nat), Value>, wf: Id)
  {
    && (forall k, f :: (to, k, f) in history <==> (wf, k, f) in history0)
    && (forall k, f :: (wf, k, f) in history0 ==> history[(to, k, f)] == history0[(wf, k, f)])
  }

  ghost predicate EventsCopied(events: map<(Id, string), Value>, to: Id, events0: map<(Id, string), Value>, wf: Id) {
    && (forall k :: (to, k) in events <==> (wf, k) in events0)
    && (forall k :: (wf, k) in events0 ==> events[(to, k)] == events0[(wf, k)])
  }

  ghost predicate StreamsCopied(streams: StreamTable, to: Id, streams0: StreamTable, wf: Id) {
    && (forall k, o :: (to, k, o) in streams <==> (wf, k, o) in streams0)
    && (forall k, o :: (wf, k, o) in streams0 ==> streams[(to, k, o)] == streams0[(wf, k, o)])
  }

  /** The rows of `to` in `copy` are the rows of `wf` in `db`. */
  ghost predicate CopyOf(copy: Db, to: Id, db: Db, wf: Id) {
    && OpsCopied(copy.ops, to, db.ops, wf)
    && HistoryCopied(copy.history, to, db.history, wf)
    && EventsCopied(copy.events, to, db.events, wf)
    && StreamsCopied(copy.streams, to, db.streams, wf)
  }

  /** No row of `wf` has a function id of `start` or more: the operation has not started. */
  ghost predicate NotStarted(db: Db, wf: Id, start: nat) {
    && (forall f :: (wf, f) in db.ops ==> f < start)
    && (forall k, f :: (wf, k, f) in db.history ==> f < start)
    && (forall k, o :: (wf, k, o) in db.streams ==> db.streams[(wf, k, o)].fid < start)
  }

  /** Below `start`, the rows of `wf` are the same in both databases. */
  ghost predicate SameBelow(db: Db, db': Db, wf: Id, start: nat) {
    && (forall f :: f < start ==> ((wf, f) in db.ops <==> (wf, f) in db'.ops))
    && (forall f :: f < start && (wf, f) in db.ops ==> db'.ops[(wf, f)] == db.ops[(wf, f)])
    && (forall k, f :: f < start ==> ((wf, k, f) in db.history <==> (wf, k, f) in db'.history))
    && (forall k, f :: f < start && (wf, k, f) in db.history ==> db'.history[(wf, k, f)] == db.history[(wf, k, f)])
    && (forall k, o :: (wf, k, o) in db.streams && db.streams[(wf, k, o)].fid < start ==>
          (wf, k, o) in db'.streams && db'.streams[(wf, k, o)] == db.streams[(wf, k, o)])
    && (forall k, o :: (wf, k, o) in db'.streams && db'.streams[(wf, k, o)].fid < start ==>
          (wf, k, o) in db.streams && db.streams[(wf, k, o)] == db'.streams[(wf, k, o)])
  }

  lemma OpsAsOf(db: Db, db': Db, wf: Id, start: nat, to: Id)
    requires NotStarted(db, wf, start) && SameBelow(db, db', wf, start) && to != wf
    requires forall f :: (to, f) !in db'.ops
    ensures OpsCopied(CopyOps(db', wf, to, start).ops, to, db.ops, wf)
    ensures SameBelow(db, CopyOps(db', wf, to, start), wf, start)
  {
  }

  lemma HistoryAsOf(db: Db, db': Db, wf: Id, start: nat, to: Id)
    requires NotStarted(db, wf, start) && SameBelow(db, db', wf, start) && to != wf
    requires forall k, f :: (to, k, f) !in db'.history
    ensures HistoryCopied(CopyHistory(db', wf, to, start).history, to, db.history, wf)
    ensures SameBelow(db, CopyHistory(db', wf, to, start), wf, start)
  {
  }

  lemma StreamsAsOf(db: Db, db': Db, wf: Id, start: nat, to: Id)
    requires NotStarted(db, wf, start) && SameBelow(db, db', wf, start)
    requires forall k, o :: (to, k, o) !in db'.streams
    ensures StreamsCopied(CopyStreams(db', wf, to, start).streams, to, db.streams, wf)
  {
  }

  lemma EventsAsOf(db: Db, db': Db, wf: Id, start: nat, to: Id)
    requires NotStarted(db, wf, start) && SameBelow(db, db', wf, start) && EventsLatest(wf, db)
    requires forall k :: (to, k) !in db'.events
    ensures EventsCopied(CopyEvents(db', wf, to, start).events, to, db.events, wf)
  {
  }

  /** What the fork copies is everything below `start`, and the events as of then. */
  lemma CopiesBelow(db: Db, db': Db, wf: Id, to: Id, start: nat)
    requires to != wf && NoRows(db', to)
    requires NotStarted(db, wf, start) && SameBelow(db, db', wf, start) && EventsLatest(wf, db)
    ensures CopyOf(CopyTables(db', wf, to, start), to, db, wf)
  {
    OpsAsOf(db, db', wf, start, to);
    var d1 := CopyOps(db', wf, to, start);
    HistoryAsOf(db, d1, wf, start, to);
    var d2 := CopyHistory(d1, wf, to, start);
    EventsAsOf(db, d2, wf, start, to);
    StreamsAsOf(db, CopyEvents(d2, wf, to, start), wf, start, to);
  }

  // ----- what later transitions leave below `start` -----

  lemma SameBelowTrans(db: Db, db': Db, db'': Db, wf: Id, start: nat)
    requires SameBelow(db, db', wf, start) && SameBelow(db', db'', wf, start)
    ensures SameBelow(db, db'', wf, start)
  {
  }

  lemma EffectBelow(db: Db, wf: Id, e: Effect, start: nat)
    requires e.Nothing? || e.f >= start
    requires e.Entry? ==> Contiguous(db.streams, wf, e.key)
    ensures SameBelow(db, Apply(db, wf, e), wf, start)
  {
  }

  /** Beyond its past, what a workflow writes to streams and events goes under later ids; inside
      it, it writes nothing. */
  lemma EffectsComeLater(code: Code, s: State, s': State, wf: Id, m: Move, h: seq<Res>)
    requires PastInv(code, s, wf, h) && WorkflowStep(code, s, s', wf, m)
    ensures var e := EffectOf(code, s, wf, m); e.Nothing? || e.f >= NextFid(code, wf, h)
  {
    if wf in s.live && Replaying(code, wf, h, s.live[wf]) {
      OnlyReplays(code, s, s', wf, h, m);
    }
  }

  lemma OwnMoveBelow(code: Code, s: State, s': State, wf: Id, m: Move, h: seq<Res>)
    requires PastInv(code, s, wf, h) && WorkflowStep(code, s, s', wf, m)
    requires Gapless(s.db, wf)
    ensures SameBelow(s.db, s'.db, wf, NextFid(code, wf, h))
  {
    var e := EffectOf(code, s, wf, m);
    OwnMoveKeepsPast(code, s, s', wf, h, m);
    EffectIs(code, s, s', wf, m);
    EffectsComeLater(code, s, s', wf, m, h);
    assert e.Entry? ==> Contiguous(s.db.streams, wf, e.key);
    EffectBelow(s.db, wf, e, NextFid(code, wf, h));
  }

  lemma OtherMoveBelow(code: Code, s: State, s': State, wf: Id, m: Move, w: Id, start: nat)
    requires WorkflowStep(code, s, s', wf, m) && w != wf
    ensures SameBelow(s.db, s'.db, w, start)
  {
    var e := EffectOf(code, s, wf, m);
    EffectIs(code, s, s', wf, m);
    ApplyElsewhere(s.db, wf, e, w);
    if ContextOnly(m) {
      ContextElsewhere(code, s, s', wf, w, m);
    } else {
      TableElsewhere(code, s, s', wf, w, m);
    }
  }

  lemma StepBelow(code: Code, s: State, s': State, wf: Id, h: seq<Res>)
    requires PastInv(code, s, wf, h) && Step(code, s, s') && Gapless(s.db, wf)
    ensures SameBelow(s.db, s'.db, wf, NextFid(code, wf, h))
  {
    if !StatusStep(code, s, s') {
      var w, m :| WorkflowStep(code, s, s', w, m);
      if w == wf {
        OwnMoveBelow(code, s, s', wf, m, h);
      } else {
        OtherMoveBelow(code, s, s', w, m, wf, NextFid(code, wf, h));
      }
    }
  }

  lemma SameBelowRefl(db: Db, wf: Id, start: nat)
    ensures SameBelow(db, db, wf, start)
  {
  }

  lemma RunStepBelow(code: Code, run: seq<State>, j: nat, wf: Id, h: seq<Res>)
    requires Run(code, run) && 0 < j < |run| && PastInv(code, run[j - 1], wf, h)
    ensures SameBelow(run[j - 1].db, run[j].db, wf, NextFid(code, wf, h))
  {
    RunKeepsOutputsInv(code, run, j - 1);
    assert StepAt(code, run, j - 1);
    StepBelow(code, run[j - 1], run[j], wf, h);
  }

  /** Once `h` is past, nothing below the function id after it changes, whatever the workflow is
      shown later. */
  lemma {:induction false} RunBelow(code: Code, run: seq<State>, i: nat, j: nat, wf: Id, h: seq<Res>)
    requires Run(code, run) && i <= j < |run| && PastInv(code, run[i], wf, h)
    ensures PastInv(code, run[j], wf, h)
    ensures SameBelow(run[i].db, run[j].db, wf, NextFid(code, wf, h))
  {
    if i < j {
      RunBelow(code, run, i, j - 1, wf, h);
      RunKeepsPast(code, run, j - 1, j, wf, h);
      RunStepBelow(code, run, j, wf, h);
      SameBelowTrans(run[i].db, run[j - 1].db, run[j].db, wf, NextFid(code, wf, h));
    } else {
      SameBelowRefl(run[i].db, wf, NextFid(code, wf, h));
    }
  }

  // ----- foreign keys -----

  ghost predicate ForeignKeys(db: Db) {
    forall w :: w !in db.status ==> NoRows(db, w)
  }

  lemma MoveKeepsForeignKeys(code: Code, s: State, s': State, wf: Id, m: Move)
    requires ForeignKeys(s.db) && RunningInv(s, wf) && WorkflowStep(code, s, s', wf, m)
    ensures ForeignKeys(s'.db)
  {
    var e := EffectOf(code, s, wf, m);
    EffectIs(code, s, s', wf, m);
    forall w | w !in s'.db.status
      ensures NoRows(s'.db, w)
    {
      if w == wf {
        WriterHasStatus(code, s, s', wf, m);
      } else {
        ApplyElsewhere(s.db, wf, e, w);
        if ContextOnly(m) {
          ContextElsewhere(code, s, s', wf, w, m);
        } else {
          TableElsewhere(code, s, s', wf, w, m);
        }
      }
      assert NoRows(s.db, w);
    }
  }

  lemma WriterHasStatus(code: Code, s: State, s': State, wf: Id, m: Move)
    requires RunningInv(s, wf) && WorkflowStep(code, s, s', wf, m)
    ensures wf in s'.db.status ==> wf in s.db.status
    ensures wf !in s'.db.status ==> s'.db == s.db
  {
  }

  lemma {:induction false} RunKeepsForeignKeys(code: Code, run: seq<State>, i: nat)
    requires Run(code, run) && i < |run|
    ensures ForeignKeys(run[i].db)
  {
    if i > 0 {
      var s, s' := run[i - 1], run[i];
      RunKeepsForeignKeys(code, run, i - 1);
      RunKeepsKernelInv(code, run, i - 1);
      assert StepAt(code, run, i - 1);
      if StatusStep(code, s, s') {
        assert forall w :: NoRows(s.db, w) ==> NoRows(s'.db, w);
      } else {
        var wf, m :| WorkflowStep(code, s, s', wf, m);
        assert RunningInv(s, wf);
        MoveKeepsForeignKeys(code, s, s', wf, m);
      }
    }
  }

  // ----- main results -----

  /** The fork is the same function on the same inputs, for the version asked for, waiting on the
      internal queue with no attempts made, and no other row has changed. */
  ghost predicate StartsFresh(st': StatusTable, to: Id, st: StatusTable, wf: Id, appVersion: Option<string>, now: int)
    requires wf in st
  {
    && to in st' && st' - {to} == st
    && var r := st'[to];
       && r.status.Enqueued? && r.queueName == Some(INTERNAL_QUEUE_NAME) && r.startedAt.None? && r.recoveryAttempts == 0
       && r.name == st[wf].name && r.className == st[wf].className && r.configName == st[wf].configName
       && r.inputs == st[wf].inputs && r.forkedFrom == Some(wf)
       && r.output.None? && r.error.None? && r.dedupId.None? && r.deadlineMs.None? && r.timeoutMs.None?
       && r.appVersion == appVersion && r.createdAt == now && r.executorId.None? && r.ownerXid.None?
       && r.partitionKey.None? && r.priority == 0
  }

  /** Fork fidelity. Take any run and any moment `i` at which operation `start` of a workflow is
      next and has not started, everything before it having been recorded. A fork at `start` taken
      at any later moment `j`, whatever became of the original since, has exactly the checkpoints,
      events, event history and streams the original had at `i`. */
  lemma ForkIsThePast(code: Code, run: seq<State>, i: nat, j: nat, wf: Id, to: Id, start: nat,
                      appVersion: Option<string>, now: int)
    requires Run(code, run) && i <= j < |run| && wf !in run[i].unlogged
    requires start == NextFid(code, wf, Log(run[i], wf)) && NotStarted(run[i].db, wf, start)
    requires wf in run[j].db.status && to !in run[j].db.status
    ensures var fork := ForkWorkflow(run[j].db, wf, to, start, appVersion, now);
            && fork.Ok? && CopyOf(fork.value, to, run[i].db, wf)
            && StartsFresh(fork.value.status, to, run[j].db.status, wf, appVersion, now)
  {
    RunKeepsForeignKeys(code, run, j);
    assert NoRows(run[j].db, to);
    RunKeepsOutputsInv(code, run, i);
    assert ReplayInv(code, run[i], wf);
    LogIsPast(code, run[i], wf);
    RunBelow(code, run, i, j, wf, Log(run[i], wf));
    var st := run[j].db.status;
    assert st[to := ForkRow(st[wf], wf, appVersion, now)] - {to} == st;
    if start > 1 {
      var row := run[j].db.(status := run[j].db.status[to := ForkRow(run[j].db.status[wf], wf, appVersion, now)]);
      CopiesBelow(run[i].db, row, wf, to, start);
    }
  }

  /** The fork's checkpoints are the same trace, so running the same code it replays every
      operation before `start` with the same result and then finds no checkpoint at `start`. */
  lemma ForkReplaysToStart(code: Code, db: Db, copy: Db, wf: Id, to: Id, h: seq<Res>, i: nat)
    requires CopyOf(copy, to, db, wf) && IsTrace(code, wf, h, db.ops)
    requires forall p :: code(to, p) == code(wf, p)
    requires i <= |h|
    ensures NextFid(code, to, h) == NextFid(code, wf, h)
    ensures IsTrace(code, to, h, copy.ops)
    ensures var k := (to, Fid(code, to, h, i) + 1);
            if i == |h| then k !in copy.ops
            else k in copy.ops && ReplayRes(code(to, h[..i]), copy.ops[k]) == h[i]
  {
    forall j | 0 <= j <= |h|
      ensures Fid(code, to, h, j) == Fid(code, wf, h, j)
    {
      SameFids(code, wf, to, h, j);
    }
    forall j | 0 <= j < |h|
      ensures LoggedAt(code, to, h, copy.ops, j)
    {
      assert LoggedAt(code, wf, h, db.ops, j);
    }
    forall j | 0 <= j <= |h|
      ensures SleepAt(code, to, h, copy.ops, j)
    {
      assert SleepAt(code, wf, h, db.ops, j);
    }
    LookupInLog(code, to, h, copy.ops, i);
  }

  lemma {:induction false} SameFids(code: Code, wf: Id, to: Id, h: seq<Res>, i: nat)
    requires forall p :: code(to, p) == code(wf, p)
    requires i <= |h|
    ensures Fid(code, to, h, i) == Fid(code, wf, h, i)
  {
    if i > 0 {
      SameFids(code, wf, to, h, i - 1);
    }
  }
}
