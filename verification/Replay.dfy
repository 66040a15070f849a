/** Durable replay: what the checkpoints of a workflow say about its execution, over every
    run with crashes, lost acknowledgements and recoveries. */
module Replay {
  import opened SystemTables
  import opened OperationLog
  import opened Kernel
  import opened WorkflowRows

  // ----- function ids -----

  /** The function-id counter after the first `i` operations of history `h`. */
  ghost function Fid(code: Code, wf: Id, h: seq<Res>, i: nat): nat
    requires i <= |h|
  {
    if i == 0 then 0 else Fid(code, wf, h, i - 1) + Width(code(wf, h[..i - 1]))
  }

  /** The function id of the operation that follows history `h`. */
  ghost function NextFid(code: Code, wf: Id, h: seq<Res>): nat {
    Fid(code, wf, h, |h|) + 1
  }

  lemma {:induction false} FidPrefix(code: Code, wf: Id, h: seq<Res>, h': seq<Res>, i: nat)
    requires i <= |h| && h <= h'
    ensures h[..i] == h'[..i]
    ensures Fid(code, wf, h, i) == Fid(code, wf, h', i)
  {
    if i > 0 {
      FidPrefix(code, wf, h, h', i - 1);
    }
  }

  lemma {:induction false} FidIncreasing(code: Code, wf: Id, h: seq<Res>, i: nat, j: nat)
    requires i <= j <= |h|
    ensures Fid(code, wf, h, i) + (j - i) <= Fid(code, wf, h, j)
    ensures i < j ==> Fid(code, wf, h, i) + Width(code(wf, h[..i])) <= Fid(code, wf, h, j)
  {
    if i < j {
      FidIncreasing(code, wf, h, i, j - 1);
    }
  }

  lemma FidSnoc(code: Code, wf: Id, h: seq<Res>, res: Res)
    ensures Fid(code, wf, h + [res], |h|) == Fid(code, wf, h, |h|)
    ensures Fid(code, wf, h + [res], |h| + 1) == Fid(code, wf, h, |h|) + Width(code(wf, h))
    ensures (h + [res])[..|h|] == h
  {
    FidPrefix(code, wf, h, h + [res], |h|);
    assert h[..|h|] == h;
  }

  // ----- what the tables of one workflow hold -----

  /** Operation `i` of the trace has its checkpoint, under its function id, with its result. */
  ghost predicate LoggedAt(code: Code, wf: Id, h: seq<Res>, ops: OpTable, i: nat)
    requires i < |h|
  {
    var a := code(wf, h[..i]);
    var k := (wf, Fid(code, wf, h, i) + 1);
    && !h[i].NoMessage? && Recordable(a, h[i])
    && k in ops && ops[k] == RecOf(a, h[i])
  }

  /** The only other checkpoints are the timeouts of `recv` calls. */
  ghost predicate SleepAt(code: Code, wf: Id, h: seq<Res>, ops: OpTable, i: nat)
    requires i <= |h|
  {
    var k := (wf, Fid(code, wf, h, i) + 2);
    code(wf, h[..i]).Recv? && k in ops ==> ops[k].name == SLEEP
  }

  ghost predicate IsTrace(code: Code, wf: Id, h: seq<Res>, ops: OpTable) {
    && (forall i :: 0 <= i < |h| ==> LoggedAt(code, wf, h, ops, i))
    && (forall i :: 0 <= i <= |h| ==> SleepAt(code, wf, h, ops, i))
    && (forall f :: (wf, f) in ops ==>
          0 < f < NextFid(code, wf, h) || (f == NextFid(code, wf, h) + 1 && code(wf, h).Recv?))
  }

  /** The stored outcome is the one the workflow's code computes from its log. */
  ghost predicate OutcomeOk(code: Code, wf: Id, h: seq<Res>, st: StatusTable) {
    wf in st && Completed(st[wf]) ==>
      code(wf, h).Finish? && Stores(st[wf], code(wf, h).outcome)
  }

  predicate Stores(r: Row, o: Outcome) {
    match o
    case Succeeded(v) => r.status.Success? && r.output == Some(v) && r.error == None
    case Failed(e) => r.status.Error? && r.output == None && r.error == Some(e)
  }

  /** The context agrees with the log, and runs an operation only at the end of it. */
  ghost predicate ExecOk(code: Code, wf: Id, h: seq<Res>, e: Exec) {
    && e.hist <= h && e.fid == Fid(code, wf, h, |e.hist|)
    && match e.phase
       case Ready => true
       case Running(f) => e.hist == h && f == NextFid(code, wf, h) && code(wf, h).RunStep?
       case Waiting(f) => e.hist == h && f == NextFid(code, wf, h) && code(wf, h).Recv?
       case Ran(f, res) =>
         && f == e.fid + 1 && code(wf, e.hist).RunStep? && (res.Returned? || res.Raised?)
         && (h == e.hist || h == e.hist + [res])
  }

  ghost predicate ReplayInv(code: Code, s: State, wf: Id) {
    && IsTrace(code, wf, Log(s, wf), s.db.ops)
    && OutcomeOk(code, wf, Log(s, wf), s.db.status)
    && (wf in s.live ==> ExecOk(code, wf, Log(s, wf), s.live[wf]))
  }

  /** Holds of every workflow, whatever it has been shown: an operation that is running has
      no checkpoint yet. */
  ghost predicate RunningInv(s: State, wf: Id) {
    wf in s.live ==>
      && wf in s.db.status
      && (s.live[wf].phase.Running? || s.live[wf].phase.Waiting? ==> (wf, s.live[wf].phase.f) !in s.db.ops)
  }

  // ----- preservation -----

  /** `s` and `s'` agree on everything `ReplayInv` says about `wf`. */
  ghost predicate SameFor(s: State, s': State, wf: Id) {
    && (forall f :: (wf, f) in s.db.ops <==> (wf, f) in s'.db.ops)
    && (forall f :: (wf, f) in s.db.ops ==> s.db.ops[(wf, f)] == s'.db.ops[(wf, f)])
    && Log(s, wf) == Log(s', wf)
  }

  lemma TraceKept(code: Code, s: State, s': State, wf: Id)
    requires SameFor(s, s', wf) && IsTrace(code, wf, Log(s, wf), s.db.ops)
    ensures IsTrace(code, wf, Log(s', wf), s'.db.ops)
  {
    var h := Log(s, wf);
    forall i | 0 <= i < |h|
      ensures LoggedAt(code, wf, h, s'.db.ops, i)
    {
      assert LoggedAt(code, wf, h, s.db.ops, i);
    }
    forall i | 0 <= i <= |h|
      ensures SleepAt(code, wf, h, s'.db.ops, i)
    {
      assert SleepAt(code, wf, h, s.db.ops, i);
    }
  }

  /** Checkpointing the next operation extends the trace by one. */
  lemma TraceGrows(code: Code, wf: Id, h: seq<Res>, res: Res, ops: OpTable, ops': OpTable)
    requires IsTrace(code, wf, h, ops)
    requires Recordable(code(wf, h), res) && !res.NoMessage?
    requires ops' == ops[(wf, NextFid(code, wf, h)) := RecOf(code(wf, h), res)]
    ensures IsTrace(code, wf, h + [res], ops')
  {
    var h' := h + [res];
    FidSnoc(code, wf, h, res);
    forall i | 0 <= i < |h'|
      ensures LoggedAt(code, wf, h', ops', i)
    {
      if i < |h| {
        FidPrefix(code, wf, h, h', i);
        FidIncreasing(code, wf, h, i, |h|);
        assert LoggedAt(code, wf, h, ops, i);
      }
    }
    forall i | 0 <= i <= |h'|
      ensures SleepAt(code, wf, h', ops', i)
    {
      if i <= |h| {
        FidPrefix(code, wf, h, h', i);
        FidIncreasing(code, wf, h, i, |h|);
        assert SleepAt(code, wf, h, ops, i);
      }
    }
  }

  /** At the end of its log a workflow finds no checkpoint; before it, the right one. */
  lemma LookupInLog(code: Code, wf: Id, h: seq<Res>, ops: OpTable, i: nat)
    requires IsTrace(code, wf, h, ops) && i <= |h|
    ensures var k := (wf, Fid(code, wf, h, i) + 1);
            if i == |h| then k !in ops
            else && k in ops && ops[k].name == OpName(code(wf, h[..i]))
                 && ReplayRes(code(wf, h[..i]), ops[k]) == h[i] && !code(wf, h[..i]).Finish?
  {
    if i < |h| {
      assert LoggedAt(code, wf, h, ops, i);
      ReplayAgrees(code(wf, h[..i]), h[i]);
    }
  }

  /** Completion and outcome of `wf` are the same in both tables. */
  ghost predicate SameOutcome(st: StatusTable, st': StatusTable, wf: Id) {
    && (wf in st ==> wf in st')
    && (wf in st' && Completed(st'[wf]) ==>
          && wf in st && st[wf].status == st'[wf].status
          && st[wf].output == st'[wf].output && st[wf].error == st'[wf].error)
  }

  predicate ContextOnly(m: Move) {
    || m.BeginM? || m.CrashM? || m.ReplayM? || m.AbortM? || m.StartStepM? || m.StartRecvM? || m.EndStepM?
    || m.UnexpectedM? || m.SendNowhereM? || m.RecvSleepUnexpectedM?
  }

  /** What the tables of a workflow can lose or gain in one transition of another workflow. */
  ghost predicate Elsewhere(s: State, s': State, w: Id) {
    && SameFor(s, s', w) && SameOutcome(s.db.status, s'.db.status, w)
    && (w in s.live <==> w in s'.live) && (w in s.live ==> s.live[w] == s'.live[w])
    && (w in s.unlogged <==> w in s'.unlogged)
  }

  lemma ContextElsewhere(code: Code, s: State, s': State, wf: Id, w: Id, m: Move)
    requires WorkflowStep(code, s, s', wf, m) && w != wf && ContextOnly(m)
    ensures Elsewhere(s, s', w)
  {
  }

  lemma StepElsewhere(code: Code, s: State, s': State, wf: Id, w: Id, m: Move)
    requires WorkflowStep(code, s, s', wf, m) && w != wf
    requires m.StepAppendM? || m.StepEventM? || m.RecordStepM? || m.RecvSleepM? || m.FinishM?
    ensures Elsewhere(s, s', w)
  {
  }

  lemma SendElsewhere(code: Code, s: State, s': State, wf: Id, w: Id, id: string, now: int, x: Option<string>,
                      acked: bool)
    requires DoSend(code, s, s', wf, id, now, x, acked) && w != wf
    ensures Elsewhere(s, s', w)
  {
  }

  lemma RecvElsewhere(code: Code, s: State, s': State, wf: Id, w: Id, id: string, x: Option<string>, acked: bool)
    requires DoRecv(code, s, s', wf, id, x, acked) && w != wf
    ensures Elsewhere(s, s', w)
  {
  }

  lemma SetEventElsewhere(code: Code, s: State, s': State, wf: Id, w: Id, x: Option<string>, acked: bool)
    requires DoSetEvent(code, s, s', wf, x, acked) && w != wf
    ensures Elsewhere(s, s', w)
  {
  }

  lemma WriteStreamElsewhere(code: Code, s: State, s': State, wf: Id, w: Id, x: Option<string>, acked: bool)
    requires DoWriteStream(code, s, s', wf, x, acked) && w != wf
    ensures Elsewhere(s, s', w)
  {
  }

  lemma TimeoutElsewhere(code: Code, s: State, s': State, wf: Id, w: Id, x: Option<string>, acked: bool)
    requires RecvTimeout(code, s, s', wf, x, acked) && w != wf
    ensures Elsewhere(s, s', w)
  {
  }

  lemma OperationElsewhere(code: Code, s: State, s': State, wf: Id, w: Id, m: Move)
    requires WorkflowStep(code, s, s', wf, m) && w != wf
    requires m.SendM? || m.RecvM? || m.SetEventM? || m.WriteStreamM? || m.RecvTimeoutM?
    ensures Elsewhere(s, s', w)
  {
    match m
    case SendM(id, now, x, acked) => SendElsewhere(code, s, s', wf, w, id, now, x, acked);
    case RecvM(id, x, acked) => RecvElsewhere(code, s, s', wf, w, id, x, acked);
    case SetEventM(x, acked) => SetEventElsewhere(code, s, s', wf, w, x, acked);
    case WriteStreamM(x, acked) => WriteStreamElsewhere(code, s, s', wf, w, x, acked);
    case RecvTimeoutM(x, acked) => TimeoutElsewhere(code, s, s', wf, w, x, acked);
  }

  lemma TableElsewhere(code: Code, s: State, s': State, wf: Id, w: Id, m: Move)
    requires WorkflowStep(code, s, s', wf, m) && w != wf && !ContextOnly(m)
    ensures Elsewhere(s, s', w)
  {
    if m.SendM? || m.RecvM? || m.SetEventM? || m.WriteStreamM? || m.RecvTimeoutM? {
      OperationElsewhere(code, s, s', wf, w, m);
    } else {
      StepElsewhere(code, s, s', wf, w, m);
    }
  }

  lemma LogElsewhere(code: Code, s: State, s': State, wf: Id, m: Move, w: Id)
    requires WorkflowStep(code, s, s', wf, m) && w != wf
    ensures Log(s', w) == Log(s, w)
  {
  }

  /** Transitions that touch neither the log nor the checkpoints. */
  lemma ContextStepKeeps(code: Code, s: State, s': State, wf: Id, m: Move)
    requires ReplayInv(code, s, wf)
    requires WorkflowStep(code, s, s', wf, m) && ContextOnly(m) && !m.ReplayM? && wf !in s'.unlogged
    ensures ReplayInv(code, s', wf)
  {
    TraceKept(code, s, s', wf);
    if wf in s.live {
      var e := s.live[wf];
      var h := Log(s, wf);
      LookupInLog(code, wf, h, s.db.ops, |e.hist|);
      assert h[..|e.hist|] == e.hist;
    }
  }

  lemma ReplayKeeps(code: Code, s: State, s': State, wf: Id)
    requires ReplayInv(code, s, wf) && Replay(code, s, s', wf)
    ensures ReplayInv(code, s', wf)
  {
    var h, e := Log(s, wf), s.live[wf];
    TraceKept(code, s, s', wf);
    LookupInLog(code, wf, h, s.db.ops, |e.hist|);
    assert h[..|e.hist|] == e.hist;
    assert e.hist + [h[|e.hist|]] == h[..|e.hist| + 1];
  }

  /** `DBOSUnexpectedStepError` cannot be raised while everything shown is checkpointed. */
  lemma NeverUnexpected(code: Code, s: State, wf: Id)
    requires ReplayInv(code, s, wf) && wf in s.live
    ensures About(code, s, wf) ==> Lookup(code, s, wf) != Err(UnexpectedStep)
    ensures s.live[wf].phase.Waiting? ==> CheckOperation(s.db, wf, s.live[wf].phase.f + 1, SLEEP) != Err(UnexpectedStep)
  {
    var h, e := Log(s, wf), s.live[wf];
    LookupInLog(code, wf, h, s.db.ops, |e.hist|);
    assert h[..|e.hist|] == e.hist;
    assert SleepAt(code, wf, h, s.db.ops, |h|);
    assert h[..|h|] == h;
  }

  /** The next operation commits its checkpoint: the log and the trace grow together. */
  lemma CommitGrows(code: Code, s: State, s': State, wf: Id, res: Res)
    requires ReplayInv(code, s, wf) && wf in s.live && wf in s.db.status
    requires s.live[wf].hist == Log(s, wf) && Recordable(code(wf, Log(s, wf)), res) && !res.NoMessage?
    requires s'.db.ops == s.db.ops[(wf, NextFid(code, wf, Log(s, wf))) := RecOf(code(wf, Log(s, wf)), res)]
    requires SameOutcome(s.db.status, s'.db.status, wf)
    requires s'.log == Grow(s, wf, res)
    requires wf in s'.live
    requires var e, e' := s.live[wf], s'.live[wf];
             e' == Advance(e, code(wf, e.hist), res) || (e'.phase.Ready? && e'.hist == e.hist && e'.fid == e.fid)
             || (e' == e && e.phase.Ran? && e.phase.res == res)
    ensures ReplayInv(code, s', wf)
  {
    var h := Log(s, wf);
    TraceGrows(code, wf, h, res, s.db.ops, s'.db.ops);
    FidSnoc(code, wf, h, res);
  }

  lemma RecordStepKeeps(code: Code, s: State, s': State, wf: Id, x: Option<string>, acked: bool)
    requires ReplayInv(code, s, wf) && RecordStep(code, s, s', wf, x, acked)
    ensures ReplayInv(code, s', wf)
  {
    var h, e := Log(s, wf), s.live[wf];
    LookupInLog(code, wf, h, s.db.ops, |e.hist|);
    assert h[..|e.hist|] == e.hist;
    if h == e.hist {
      CommitGrows(code, s, s', wf, e.phase.res);
    } else {
      TraceKept(code, s, s', wf);
      FidSnoc(code, wf, e.hist, e.phase.res);
      FidPrefix(code, wf, e.hist, h, |e.hist|);
    }
  }

  /** A fresh lookup happens only at the end of the log. */
  lemma FreshAtEnd(code: Code, s: State, wf: Id)
    requires ReplayInv(code, s, wf) && Fresh(code, s, wf)
    ensures s.live[wf].hist == Log(s, wf) && s.live[wf].fid + 1 == NextFid(code, wf, Log(s, wf))
    ensures (wf, s.live[wf].fid + 1) !in s.db.ops
  {
    var h, e := Log(s, wf), s.live[wf];
    LookupInLog(code, wf, h, s.db.ops, |e.hist|);
    assert h[..|e.hist|] == e.hist;
  }

  lemma SendKeeps(code: Code, s: State, s': State, wf: Id, id: string, now: int, x: Option<string>, acked: bool)
    requires ReplayInv(code, s, wf) && DoSend(code, s, s', wf, id, now, x, acked)
    ensures ReplayInv(code, s', wf)
  {
    FreshAtEnd(code, s, wf);
    CommitGrows(code, s, s', wf, Unit);
  }

  lemma SetEventKeeps(code: Code, s: State, s': State, wf: Id, x: Option<string>, acked: bool)
    requires ReplayInv(code, s, wf) && DoSetEvent(code, s, s', wf, x, acked)
    ensures ReplayInv(code, s', wf)
  {
    FreshAtEnd(code, s, wf);
    CommitGrows(code, s, s', wf, Unit);
  }

  lemma WriteStreamKeeps(code: Code, s: State, s': State, wf: Id, x: Option<string>, acked: bool)
    requires ReplayInv(code, s, wf) && DoWriteStream(code, s, s', wf, x, acked)
    ensures ReplayInv(code, s', wf)
  {
    FreshAtEnd(code, s, wf);
    CommitGrows(code, s, s', wf, Unit);
  }

  lemma RecvKeeps(code: Code, s: State, s': State, wf: Id, id: string, x: Option<string>, acked: bool)
    requires ReplayInv(code, s, wf) && RunningInv(s, wf) && DoRecv(code, s, s', wf, id, x, acked)
    ensures ReplayInv(code, s', wf)
  {
    CommitGrows(code, s, s', wf, Returned(s.db.notes[id].body));
  }

  lemma SleepKeeps(code: Code, s: State, s': State, wf: Id, wake: Value, x: Option<string>)
    requires ReplayInv(code, s, wf) && RecvSleep(code, s, s', wf, wake, x)
    ensures ReplayInv(code, s', wf)
  {
    var h := Log(s, wf);
    assert h[..|h|] == h;
    forall i | 0 <= i < |h|
      ensures LoggedAt(code, wf, h, s'.db.ops, i)
    {
      assert LoggedAt(code, wf, h, s.db.ops, i);
    }
    forall i | 0 <= i <= |h|
      ensures SleepAt(code, wf, h, s'.db.ops, i)
    {
      assert SleepAt(code, wf, h, s.db.ops, i);
    }
  }

  lemma BodyAndFinishKeep(code: Code, s: State, s': State, wf: Id, m: Move)
    requires ReplayInv(code, s, wf) && WorkflowStep(code, s, s', wf, m)
    requires m.StepAppendM? || m.StepEventM? || m.FinishM?
    ensures ReplayInv(code, s', wf)
  {
    TraceKept(code, s, s', wf);
    if m.FinishM? {
      var h, e := Log(s, wf), s.live[wf];
      LookupInLog(code, wf, h, s.db.ops, |e.hist|);
      assert h[..|e.hist|] == e.hist;
      assert e.hist == h;
    }
  }

  lemma OperationKeeps(code: Code, s: State, s': State, wf: Id, m: Move)
    requires ReplayInv(code, s, wf) && RunningInv(s, wf) && WorkflowStep(code, s, s', wf, m)
    requires m.RecordStepM? || m.SendM? || m.SetEventM? || m.WriteStreamM? || m.RecvM?
    ensures ReplayInv(code, s', wf)
  {
    match m
    case RecordStepM(x, acked) => RecordStepKeeps(code, s, s', wf, x, acked);
    case SendM(id, now, x, acked) => SendKeeps(code, s, s', wf, id, now, x, acked);
    case SetEventM(x, acked) => SetEventKeeps(code, s, s', wf, x, acked);
    case WriteStreamM(x, acked) => WriteStreamKeeps(code, s, s', wf, x, acked);
    case RecvM(id, x, acked) => RecvKeeps(code, s, s', wf, id, x, acked);
  }

  /** Every transition of a workflow keeps its own replay invariant. */
  lemma OwnStepKeeps(code: Code, s: State, s': State, wf: Id, m: Move)
    requires ReplayInv(code, s, wf) && RunningInv(s, wf)
    requires WorkflowStep(code, s, s', wf, m) && wf !in s'.unlogged
    ensures ReplayInv(code, s', wf)
  {
    if m.RecordStepM? || m.SendM? || m.SetEventM? || m.WriteStreamM? || m.RecvM? {
      OperationKeeps(code, s, s', wf, m);
    } else if m.ReplayM? {
      ReplayKeeps(code, s, s', wf);
    } else if m.RecvSleepM? {
      SleepKeeps(code, s, s', wf, m.wake, m.executor);
    } else if m.StepAppendM? || m.StepEventM? || m.FinishM? {
      BodyAndFinishKeep(code, s, s', wf, m);
    } else if !m.RecvTimeoutM? {
      ContextStepKeeps(code, s, s', wf, m);
    }
  }

  lemma RunningKept(code: Code, s: State, s': State, wf: Id, m: Move)
    requires RunningInv(s, wf) && WorkflowStep(code, s, s', wf, m)
    ensures RunningInv(s', wf)
  {
  }

  // ----- whole runs -----

  ghost predicate KernelInv(code: Code, s: State) {
    && (forall w :: RunningInv(s, w))
    && (forall w :: w !in s.unlogged ==> ReplayInv(code, s, w))
  }

  lemma StepKeepsKernelInv(code: Code, s: State, s': State)
    requires KernelInv(code, s) && Step(code, s, s')
    ensures KernelInv(code, s')
  {
    if StatusStep(code, s, s') {
      forall w
        ensures RunningInv(s', w)
        ensures w !in s'.unlogged ==> ReplayInv(code, s', w)
      {
        assert RunningInv(s, w);
        if w !in s'.unlogged {
          assert ReplayInv(code, s, w);
          TraceKept(code, s, s', w);
        }
      }
    } else {
      var wf, m :| WorkflowStep(code, s, s', wf, m);
      forall w
        ensures RunningInv(s', w)
        ensures w !in s'.unlogged ==> ReplayInv(code, s', w)
      {
        assert RunningInv(s, w);
        OneStep(code, s, s', wf, m, w);
      }
    }
  }

  lemma OneStep(code: Code, s: State, s': State, wf: Id, m: Move, w: Id)
    requires WorkflowStep(code, s, s', wf, m)
    requires RunningInv(s, w) && (w !in s.unlogged ==> ReplayInv(code, s, w))
    ensures RunningInv(s', w)
    ensures w !in s'.unlogged ==> ReplayInv(code, s', w)
  {
    if w == wf {
      RunningKept(code, s, s', wf, m);
      if w !in s'.unlogged {
        UnloggedGrows(code, s, s', wf, m);
        OwnStepKeeps(code, s, s', wf, m);
      }
    } else {
      if ContextOnly(m) {
        ContextElsewhere(code, s, s', wf, w, m);
      } else {
        TableElsewhere(code, s, s', wf, w, m);
      }
      if w !in s'.unlogged {
        TraceKept(code, s, s', w);
      }
    }
  }

  lemma UnloggedGrows(code: Code, s: State, s': State, wf: Id, m: Move)
    requires WorkflowStep(code, s, s', wf, m)
    ensures s.unlogged <= s'.unlogged
  {
  }

  lemma {:induction false} RunKeepsKernelInv(code: Code, run: seq<State>, i: nat)
    requires Run(code, run) && i < |run|
    ensures KernelInv(code, run[i])
  {
    if i > 0 {
      RunKeepsKernelInv(code, run, i - 1);
      assert StepAt(code, run, i - 1);
      StepKeepsKernelInv(code, run[i - 1], run[i]);
    } else {
      forall w
        ensures ReplayInv(code, run[0], w)
      {
        assert Log(run[0], w) == [];
      }
    }
  }

  // ----- main results -----

  /** The checkpoints determine the trace: no other history fits the same table. */
  lemma {:induction false} TracePrefixesAgree(code: Code, wf: Id, h: seq<Res>, h': seq<Res>, ops: OpTable, i: nat)
    requires IsTrace(code, wf, h, ops) && IsTrace(code, wf, h', ops)
    requires i <= |h| && i <= |h'|
    ensures h[..i] == h'[..i]
  {
    if i > 0 {
      TracePrefixesAgree(code, wf, h, h', ops, i - 1);
      FidPrefix(code, wf, h[..i - 1], h, i - 1);
      FidPrefix(code, wf, h[..i - 1], h', i - 1);
      LookupInLog(code, wf, h, ops, i - 1);
      LookupInLog(code, wf, h', ops, i - 1);
    }
  }

  lemma TraceUnique(code: Code, wf: Id, h: seq<Res>, h': seq<Res>, ops: OpTable)
    requires IsTrace(code, wf, h, ops) && IsTrace(code, wf, h', ops)
    ensures h == h'
  {
    var n := if |h| < |h'| then |h| else |h'|;
    TracePrefixesAgree(code, wf, h, h', ops, n);
    FidPrefix(code, wf, h[..n], h, n);
    FidPrefix(code, wf, h[..n], h', n);
    LookupInLog(code, wf, h, ops, n);
    LookupInLog(code, wf, h', ops, n);
    assert h[..|h|] == h && h'[..|h'|] == h';
  }

  /** In every reachable state, for a workflow that was only shown checkpointed results: its
      checkpoints are one prefix of the trace of its code, its live context is at a prefix of
      that, `DBOSUnexpectedStepError` cannot come next, and a stored outcome is the one the
      code computes from the checkpointed results. */
  lemma DurableReplay(code: Code, run: seq<State>, i: nat, wf: Id)
    requires Run(code, run) && i < |run| && wf !in run[i].unlogged
    ensures var s := run[i];
            && (exists h :: IsTrace(code, wf, h, s.db.ops))
            && forall h :: IsTrace(code, wf, h, s.db.ops) ==>
                 && OutcomeOk(code, wf, h, s.db.status)
                 && (wf in s.live ==> s.live[wf].hist <= h)
    ensures wf in run[i].live && About(code, run[i], wf) ==> Lookup(code, run[i], wf) != Err(UnexpectedStep)
  {
    var s := run[i];
    RunKeepsKernelInv(code, run, i);
    assert ReplayInv(code, s, wf);
    assert IsTrace(code, wf, Log(s, wf), s.db.ops);
    forall h | IsTrace(code, wf, h, s.db.ops)
      ensures h == Log(s, wf)
    {
      TraceUnique(code, wf, h, Log(s, wf), s.db.ops);
    }
    if wf in s.live {
      NeverUnexpected(code, s, wf);
    }
  }

  /** Checkpoints are permanent: no transition removes or changes one. */
  ghost predicate OpsKept(s: State, s': State) {
    forall k :: k in s.db.ops ==> k in s'.db.ops && s'.db.ops[k] == s.db.ops[k]
  }

  lemma StepKeepsOps(code: Code, s: State, s': State)
    requires Step(code, s, s')
    ensures OpsKept(s, s')
  {
    if !StatusStep(code, s, s') {
      var wf, m :| WorkflowStep(code, s, s', wf, m);
      MoveKeepsOps(code, s, s', wf, m);
    }
  }

  lemma MoveKeepsOps(code: Code, s: State, s': State, wf: Id, m: Move)
    requires WorkflowStep(code, s, s', wf, m)
    ensures OpsKept(s, s')
  {
  }

  lemma {:induction false} RunKeepsOps(code: Code, run: seq<State>, i: nat, j: nat)
    requires Run(code, run) && i <= j < |run|
    ensures OpsKept(run[i], run[j])
  {
    if i < j {
      RunKeepsOps(code, run, i, j - 1);
      assert StepAt(code, run, j - 1);
      StepKeepsOps(code, run[j - 1], run[j]);
    }
  }

  /** Once a step or a receive has its checkpoint, it never runs again, on any execution of
      any workflow, however often it crashes and recovers. */
  lemma CheckpointedNeverRunsAgain(code: Code, run: seq<State>, i: nat, j: nat, wf: Id, f: nat)
    requires Run(code, run) && i <= j < |run|
    requires (wf, f) in run[i].db.ops && wf in run[j].live
    ensures run[j].live[wf].phase != Running(f) && run[j].live[wf].phase != Waiting(f)
  {
    RunKeepsKernelInv(code, run, j);
    RunKeepsOps(code, run, i, j);
    assert RunningInv(run[j], wf);
  }
}
