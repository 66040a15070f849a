/** What a workflow's recorded past promises for good. A workflow may later be shown a result
    that no checkpoint holds; what was recorded before stays recorded, and every later execution
    replays it before doing anything else. */
module Past {
  import opened SystemTables
  import opened OperationLog
  import opened Kernel
  import opened Replay
  import opened WorkflowRows

  ghost predicate Recorded(code: Code, wf: Id, h: seq<Res>, ops: OpTable) {
    forall i :: 0 <= i < |h| ==> LoggedAt(code, wf, h, ops, i)
  }

  /** The execution is still inside `h`, and does nothing but replay it. A step whose record was
      written without the acknowledgement arriving may be about to be recorded again. */
  ghost predicate Replaying(code: Code, wf: Id, h: seq<Res>, e: Exec) {
    var n := |e.hist|;
    && n < |h| && e.hist == h[..n] && e.fid == Fid(code, wf, h, n)
    && match e.phase
       case Ready => true
       case Ran(f, res) => f == e.fid + 1 && res == h[n]
       case _ => false
  }

  /** The execution has been shown `h`, and works under function ids that come after it. */
  ghost predicate Beyond(code: Code, wf: Id, h: seq<Res>, e: Exec) {
    && h <= e.hist && e.fid + 1 >= NextFid(code, wf, h)
    && match e.phase
       case Ready => true
       case Running(f) => f >= NextFid(code, wf, h)
       case Waiting(f) => f >= NextFid(code, wf, h)
       case Ran(f, _) => f >= NextFid(code, wf, h)
  }

  ghost predicate PastInv(code: Code, s: State, wf: Id, h: seq<Res>) {
    && Recorded(code, wf, h, s.db.ops)
    && (wf in s.live ==> Replaying(code, wf, h, s.live[wf]) || Beyond(code, wf, h, s.live[wf]))
  }

  /** The whole log is past at the moment it is taken. */
  lemma LogIsPast(code: Code, s: State, wf: Id)
    requires ReplayInv(code, s, wf)
    ensures PastInv(code, s, wf, Log(s, wf))
  {
    var h := Log(s, wf);
    if wf in s.live {
      var e := s.live[wf];
      assert e.hist == h[..|e.hist|];
      if |e.hist| == |h| {
        assert e.hist == h;
      }
    }
  }

  /** Inside `h` every lookup finds the result recorded, or that the workflow is cancelled. */
  lemma LookupInPast(code: Code, s: State, wf: Id, h: seq<Res>)
    requires Recorded(code, wf, h, s.db.ops) && wf in s.live && Replaying(code, wf, h, s.live[wf])
    ensures var e := s.live[wf];
            var a := Next(code, s, wf);
            && !a.Finish? && (wf, e.fid + 1) in s.db.ops && s.db.ops[(wf, e.fid + 1)].name == OpName(a)
            && ReplayRes(a, s.db.ops[(wf, e.fid + 1)]) == h[|e.hist|]
            && !Fresh(code, s, wf) && Lookup(code, s, wf) != Err(UnexpectedStep)
  {
    var n := |s.live[wf].hist|;
    assert LoggedAt(code, wf, h, s.db.ops, n);
    ReplayAgrees(code(wf, h[..n]), h[n]);
  }

  /** Inside `h` an execution replays, records again what is recorded, or ends. */
  lemma OnlyReplays(code: Code, s: State, s': State, wf: Id, h: seq<Res>, m: Move)
    requires PastInv(code, s, wf, h) && wf in s.live && Replaying(code, wf, h, s.live[wf])
    requires WorkflowStep(code, s, s', wf, m)
    ensures m.CrashM? || m.AbortM? || m.ReplayM? || m.RecordStepM?
  {
    LookupInPast(code, s, wf, h);
  }

  lemma ReplayStaysInPast(code: Code, s: State, s': State, wf: Id, h: seq<Res>)
    requires PastInv(code, s, wf, h) && wf in s.live && Replaying(code, wf, h, s.live[wf])
    requires Kernel.Replay(code, s, s', wf)
    ensures PastInv(code, s', wf, h)
  {
    LookupInPast(code, s, wf, h);
    OneFurther(code, wf, h, |s.live[wf].hist|);
  }

  lemma OneFurther(code: Code, wf: Id, h: seq<Res>, n: nat)
    requires n < |h|
    ensures h[..n + 1] == h[..n] + [h[n]]
    ensures Fid(code, wf, h, n + 1) == Fid(code, wf, h, n) + Width(code(wf, h[..n]))
    ensures n + 1 == |h| ==> h[..n + 1] == h && Fid(code, wf, h, n + 1) + 1 == NextFid(code, wf, h)
  {
  }

  lemma RecordAgainStaysInPast(code: Code, s: State, s': State, wf: Id, h: seq<Res>, x: Option<string>, acked: bool)
    requires PastInv(code, s, wf, h) && wf in s.live && Replaying(code, wf, h, s.live[wf])
    requires RecordStep(code, s, s', wf, x, acked)
    ensures s'.db.ops == s.db.ops && PastInv(code, s', wf, h)
  {
    LookupInPast(code, s, wf, h);
    OneFurther(code, wf, h, |s.live[wf].hist|);
  }

  /** Beyond `h`, every checkpoint and every row goes under a later function id. */
  lemma BeyondWritesLater(code: Code, s: State, s': State, wf: Id, h: seq<Res>, m: Move)
    requires wf in s.live && Beyond(code, wf, h, s.live[wf]) && WorkflowStep(code, s, s', wf, m)
    ensures forall f :: f < NextFid(code, wf, h) ==> ((wf, f) in s.db.ops <==> (wf, f) in s'.db.ops)
    ensures forall f :: f < NextFid(code, wf, h) && (wf, f) in s.db.ops ==> s'.db.ops[(wf, f)] == s.db.ops[(wf, f)]
  {
  }

  lemma BeyondStaysBeyond(code: Code, s: State, s': State, wf: Id, h: seq<Res>, m: Move)
    requires wf in s.live && Beyond(code, wf, h, s.live[wf]) && WorkflowStep(code, s, s', wf, m)
    ensures wf in s'.live ==> Beyond(code, wf, h, s'.live[wf])
  {
  }

  lemma RecordedKept(code: Code, s: State, s': State, wf: Id, h: seq<Res>)
    requires Recorded(code, wf, h, s.db.ops) && OpsKept(s, s')
    ensures Recorded(code, wf, h, s'.db.ops)
  {
    forall i | 0 <= i < |h|
      ensures LoggedAt(code, wf, h, s'.db.ops, i)
    {
      assert LoggedAt(code, wf, h, s.db.ops, i);
    }
  }

  /** Below `start` the checkpoints of `wf` are the same. */
  ghost predicate OpsSameBelow(s: State, s': State, wf: Id, start: nat) {
    && (forall f :: f < start ==> ((wf, f) in s.db.ops <==> (wf, f) in s'.db.ops))
    && (forall f :: f < start && (wf, f) in s.db.ops ==> s'.db.ops[(wf, f)] == s.db.ops[(wf, f)])
  }

  lemma RecoveryStartsOver(code: Code, s: State, s': State, wf: Id, h: seq<Res>, m: Move)
    requires PastInv(code, s, wf, h) && wf !in s.live && WorkflowStep(code, s, s', wf, m)
    ensures PastInv(code, s', wf, h) && s'.db == s.db
  {
    assert m.BeginM? || m.CrashM?;
    assert h[..0] == [];
  }

  lemma OwnMoveInPast(code: Code, s: State, s': State, wf: Id, h: seq<Res>, m: Move)
    requires PastInv(code, s, wf, h) && wf in s.live && Replaying(code, wf, h, s.live[wf])
    requires WorkflowStep(code, s, s', wf, m)
    ensures PastInv(code, s', wf, h) && s'.db.ops == s.db.ops
  {
    OnlyReplays(code, s, s', wf, h, m);
    match m
    case ReplayM => ReplayStaysInPast(code, s, s', wf, h);
    case RecordStepM(x, acked) => RecordAgainStaysInPast(code, s, s', wf, h, x, acked);
    case CrashM =>
    case AbortM =>
  }

  lemma OwnMoveKeepsPast(code: Code, s: State, s': State, wf: Id, h: seq<Res>, m: Move)
    requires PastInv(code, s, wf, h) && WorkflowStep(code, s, s', wf, m)
    ensures PastInv(code, s', wf, h) && OpsSameBelow(s, s', wf, NextFid(code, wf, h))
  {
    if wf !in s.live {
      RecoveryStartsOver(code, s, s', wf, h, m);
    } else if Replaying(code, wf, h, s.live[wf]) {
      OwnMoveInPast(code, s, s', wf, h, m);
    } else {
      MoveKeepsOps(code, s, s', wf, m);
      RecordedKept(code, s, s', wf, h);
      BeyondStaysBeyond(code, s, s', wf, h, m);
      BeyondWritesLater(code, s, s', wf, h, m);
    }
  }

  lemma OtherMoveKeepsPast(code: Code, s: State, s': State, wf: Id, m: Move, w: Id, h: seq<Res>)
    requires PastInv(code, s, w, h) && WorkflowStep(code, s, s', wf, m) && w != wf
    ensures PastInv(code, s', w, h) && OpsSameBelow(s, s', w, NextFid(code, w, h))
  {
    if ContextOnly(m) {
      ContextElsewhere(code, s, s', wf, w, m);
    } else {
      TableElsewhere(code, s, s', wf, w, m);
    }
    MoveKeepsOps(code, s, s', wf, m);
    RecordedKept(code, s, s', w, h);
  }

  /** Every step of every run keeps the past, and what lies below the function id after it. */
  lemma StepKeepsPast(code: Code, s: State, s': State, w: Id, h: seq<Res>)
    requires PastInv(code, s, w, h) && Step(code, s, s')
    ensures PastInv(code, s', w, h) && OpsSameBelow(s, s', w, NextFid(code, w, h))
  {
    if !StatusStep(code, s, s') {
      var wf, m :| WorkflowStep(code, s, s', wf, m);
      if w == wf {
        OwnMoveKeepsPast(code, s, s', wf, h, m);
      } else {
        OtherMoveKeepsPast(code, s, s', wf, m, w, h);
      }
    }
  }

  lemma {:induction false} RunKeepsPast(code: Code, run: seq<State>, i: nat, j: nat, wf: Id, h: seq<Res>)
    requires Run(code, run) && i <= j < |run|
    requires PastInv(code, run[i], wf, h)
    ensures PastInv(code, run[j], wf, h)
  {
    if i < j {
      RunKeepsPast(code, run, i, j - 1, wf, h);
      assert StepAt(code, run, j - 1);
      StepKeepsPast(code, run[j - 1], run[j], wf, h);
    }
  }

  // ----- main result -----

  /** Take any moment `i` before a workflow is first shown an unrecorded result, and the trace
      `h` of its checkpoints then. At every later moment, whatever it has been shown since: all of
      `h` is still recorded, the live execution has seen a part of `h` or all of it, and as long as it
      has not seen all, it runs no body and its next lookup finds the recorded result or that
      the workflow is cancelled. */
  lemma RecordedPastIsReplayed(code: Code, run: seq<State>, i: nat, j: nat, wf: Id, h: seq<Res>)
    requires Run(code, run) && i <= j < |run|
    requires wf !in run[i].unlogged && IsTrace(code, wf, h, run[i].db.ops)
    ensures Recorded(code, wf, h, run[j].db.ops)
    ensures wf in run[j].live ==> run[j].live[wf].hist <= h || h <= run[j].live[wf].hist
    ensures wf in run[j].live && |run[j].live[wf].hist| < |h| ==>
              var s, e := run[j], run[j].live[wf];
              && !e.phase.Running? && !e.phase.Waiting?
              && match Lookup(code, s, wf)
                 case Err(error) => error == WorkflowCancelled
                 case Ok(rec) => rec.Some? && ReplayRes(Next(code, s, wf), rec.value) == h[|e.hist|]
  {
    RunKeepsKernelInv(code, run, i);
    assert ReplayInv(code, run[i], wf);
    TraceUnique(code, wf, h, Log(run[i], wf), run[i].db.ops);
    LogIsPast(code, run[i], wf);
    RunKeepsPast(code, run, i, j, wf, h);
    RunKeepsKernelInv(code, run, j);
    assert RunningInv(run[j], wf);
    if wf in run[j].live && Replaying(code, wf, h, run[j].live[wf]) {
      LookupInPast(code, run[j], wf, h);
    }
  }

  // ----- after an unrecorded result -----

  /** A workflow that receives, and then runs step `a` if it was told that there was no message,
      and step `b` if it was told anything else. */
  function Impatient(wf: Id, h: seq<Res>): Action {
    if h == [] then Recv("t")
    else if |h| > 1 then Finish(Succeeded(""))
    else if h[0].NoMessage? then RunStep("a")
    else RunStep("b")
  }

  /** One workflow, `w`, by itself. */
  ghost function Alone(r: Row, ops: OpTable, live: map<Id, Exec>, log: map<Id, seq<Res>>, unlogged: set<Id>): State {
    State(Db(map["w" := r], ops, map[], map[], map[], map[]), live, log, unlogged, map[], map[])
  }

  const X := Returned("x")
  const AFTER_TIMEOUT: OpTable := map[("w", 1) := UnitRecord(RECV)]
  const AFTER_STEP: OpTable := AFTER_TIMEOUT[("w", 3) := RecOf(RunStep("a"), X)]
  const NOT_RECEIVED := Raised("No output recorded in the last recv")

  /** A run of it: the receive times out and step `a` is recorded; then a crash and a recovery. */
  ghost function Scene(r: Row, i: nat): State {
    match i
    case 0 => Alone(r, map[], map[], map[], {})
    case 1 => Alone(r, map[], map["w" := Exec([], 0, Ready)], map[], {})
    case 2 => Alone(r, map[], map["w" := Exec([], 0, Waiting(1))], map[], {})
    case 3 => Alone(r, AFTER_TIMEOUT, map["w" := Exec([NoMessage], 2, Ready)], map[], {"w"})
    case 4 => Alone(r, AFTER_TIMEOUT, map["w" := Exec([NoMessage], 2, Running(3))], map[], {"w"})
    case 5 => Alone(r, AFTER_TIMEOUT, map["w" := Exec([NoMessage], 2, Ran(3, X))], map[], {"w"})
    case 6 => Alone(r, AFTER_STEP, map["w" := Exec([NoMessage, X], 3, Ready)], map["w" := [X]], {"w"})
    case 7 => Alone(r, AFTER_STEP, map[], map["w" := [X]], {"w"})
    case 8 => Alone(r, AFTER_STEP, map["w" := Exec([], 0, Ready)], map["w" := [X]], {"w"})
    case _ => Alone(r, AFTER_STEP, map["w" := Exec([NOT_RECEIVED], 2, Ready)], map["w" := [X]], {"w"})
  }

  lemma MoveIsStep(code: Code, s: State, s': State, m: Move)
    requires WorkflowStep(code, s, s', "w", m)
    ensures Step(code, s, s')
  {
  }

  lemma StartsReceiving(r: Row)
    requires r.status.Pending?
    ensures Step(Impatient, Scene(r, 0), Scene(r, 1)) && Step(Impatient, Scene(r, 1), Scene(r, 2))
  {
    MoveIsStep(Impatient, Scene(r, 0), Scene(r, 1), BeginM);
    MoveIsStep(Impatient, Scene(r, 1), Scene(r, 2), StartRecvM);
  }

  lemma TimesOut(r: Row)
    ensures Step(Impatient, Scene(r, 2), Scene(r, 3))
  {
    var s, s' := Scene(r, 2), Scene(r, 3);
    var e := s.live["w"];
    assert [] + [NoMessage] == [NoMessage];
    assert Advance(e, Recv("t"), NoMessage) == s'.live["w"];
    assert RecvTimeoutTxn(s.db, "w", 1, None) == s'.db;
    MoveIsStep(Impatient, s, s', RecvTimeoutM(None, true));
  }

  lemma RunsA(r: Row)
    requires r.status.Pending?
    ensures Step(Impatient, Scene(r, 3), Scene(r, 4)) && Step(Impatient, Scene(r, 4), Scene(r, 5))
  {
    MoveIsStep(Impatient, Scene(r, 3), Scene(r, 4), StartStepM);
    MoveIsStep(Impatient, Scene(r, 4), Scene(r, 5), EndStepM(X));
  }

  lemma RecordsA(r: Row)
    ensures Step(Impatient, Scene(r, 5), Scene(r, 6)) && Step(Impatient, Scene(r, 6), Scene(r, 7))
  {
    var s, s' := Scene(r, 5), Scene(r, 6);
    assert [] + [X] == [X] && [NoMessage] + [X] == [NoMessage, X];
    assert Grow(s, "w", X) == s'.log;
    assert Advance(s.live["w"], RunStep("a"), X) == s'.live["w"];
    assert RecordOperation(s.db, "w", 3, RecOf(RunStep("a"), X), None) == s'.db;
    MoveIsStep(Impatient, s, s', RecordStepM(None, true));
    MoveIsStep(Impatient, s', Scene(r, 7), CrashM);
  }

  lemma ReplaysTheReceive(r: Row)
    requires r.status.Pending?
    ensures Step(Impatient, Scene(r, 7), Scene(r, 8)) && Step(Impatient, Scene(r, 8), Scene(r, 9))
  {
    MoveIsStep(Impatient, Scene(r, 7), Scene(r, 8), BeginM);
    var s, s' := Scene(r, 8), Scene(r, 9);
    assert [] + [NOT_RECEIVED] == [NOT_RECEIVED];
    assert Lookup(Impatient, s, "w") == Ok(Some(UnitRecord(RECV)));
    assert Advance(s.live["w"], Recv("t"), NOT_RECEIVED) == s'.live["w"];
    MoveIsStep(Impatient, s, s', ReplayM);
  }

  lemma SceneSteps(r: Row, i: nat)
    requires r.status.Pending? && i < 9
    ensures Step(Impatient, Scene(r, i), Scene(r, i + 1))
  {
    if i < 2 {
      StartsReceiving(r);
    } else if i == 2 {
      TimesOut(r);
    } else if i < 5 {
      RunsA(r);
    } else if i < 7 {
      RecordsA(r);
    } else {
      ReplaysTheReceive(r);
    }
  }

  lemma FirstScene(r: Row)
    requires r.status.Pending?
    ensures Initial(Scene(r, 0))
  {
  }

  lemma FindsTheRecordOfA(r: Row)
    requires r.status.Pending?
    ensures var s := Scene(r, 9); About(Impatient, s, "w") && Lookup(Impatient, s, "w") == Err(UnexpectedStep)
  {
  }

  /** Why the replay theorems stop at an unrecorded result: the replayed receive raises, the code
      goes to step `b` instead, and what it finds is the record of `a`. */
  lemma TimedOutReceiveDiverges(r: Row) returns (run: seq<State>)
    requires r.status.Pending?
    ensures Run(Impatient, run)
    ensures var s := run[|run| - 1];
            About(Impatient, s, "w") && Lookup(Impatient, s, "w") == Err(UnexpectedStep)
  {
    run := seq(10, i requires 0 <= i < 10 => Scene(r, i));
    FirstScene(r);
    forall i | 0 <= i < |run| - 1
      ensures StepAt(Impatient, run, i)
    {
      SceneSteps(r, i);
    }
    FindsTheRecordOfA(r);
  }
}
