/** Which values the events of a workflow hold, over every run of the kernel. */
module Events {
  import opened SystemTables
  import opened Kernel
  import opened Replay
  import opened Outputs

  /** If operation `i` sets an event, the history holds its value under its function id. */
  ghost predicate SetAt(code: Code, wf: Id, h: seq<Res>, db: Db, i: nat)
    requires i < |h|
  {
    var a, f := code(wf, h[..i]), Fid(code, wf, h, i) + 1;
    a.SetEvent? ==> (wf, a.key, f) in db.history && db.history[(wf, a.key, f)] == a.value
  }

  /** The history row under `f` was written by operation `i`: a set of that value, or a step. */
  ghost predicate WrittenBy(code: Code, wf: Id, h: seq<Res>, key: string, f: nat, value: Value, i: nat) {
    && i <= |h| && f == Fid(code, wf, h, i) + 1
    && (code(wf, h[..i]).RunStep? || (i < |h| && code(wf, h[..i]) == SetEvent(key, value)))
  }

  ghost predicate HasWriter(code: Code, wf: Id, h: seq<Res>, key: string, f: nat, value: Value) {
    exists i :: WrittenBy(code, wf, h, key, f, value, i)
  }

  ghost predicate EventsOf(code: Code, wf: Id, h: seq<Res>, db: Db) {
    && (forall i :: 0 <= i < |h| ==> SetAt(code, wf, h, db, i))
    && (forall k, f :: (wf, k, f) in db.history ==> HasWriter(code, wf, h, k, f, db.history[(wf, k, f)]))
  }

  lemma EventsKept(code: Code, wf: Id, h: seq<Res>, db: Db, db': Db)
    requires EventsOf(code, wf, h, db) && SameOutputs(db, db', wf)
    ensures EventsOf(code, wf, h, db')
  {
    forall i | 0 <= i < |h|
      ensures SetAt(code, wf, h, db', i)
    {
      assert SetAt(code, wf, h, db, i);
    }
  }

  lemma WriterInLongerTrace(code: Code, wf: Id, h: seq<Res>, res: Res, key: string, f: nat, value: Value)
    requires HasWriter(code, wf, h, key, f, value)
    ensures HasWriter(code, wf, h + [res], key, f, value)
  {
    var i :| WrittenBy(code, wf, h, key, f, value, i);
    FidPrefix(code, wf, h, h + [res], i);
    assert WrittenBy(code, wf, h + [res], key, f, value, i);
  }

  lemma SetInLongerTrace(code: Code, wf: Id, h: seq<Res>, res: Res, db: Db, i: nat)
    requires i < |h| && SetAt(code, wf, h, db, i)
    ensures SetAt(code, wf, h + [res], db, i)
  {
    FidPrefix(code, wf, h, h + [res], i);
  }

  /** Writing under the next function id leaves what earlier operations set. */
  lemma SetStays(code: Code, wf: Id, h: seq<Res>, db: Db, e: Effect, i: nat)
    requires i < |h| && SetAt(code, wf, h, db, i)
    requires e.Nothing? || e.f == NextFid(code, wf, h)
    ensures SetAt(code, wf, h, Apply(db, wf, e), i)
  {
    FidIncreasing(code, wf, h, i, |h|);
  }

  /** A running step may set events under its own function id. */
  lemma StepKeepsEvents(code: Code, wf: Id, h: seq<Res>, db: Db, e: Effect)
    requires EventsOf(code, wf, h, db) && (e.Nothing? || (code(wf, h).RunStep? && e.f == NextFid(code, wf, h)))
    ensures EventsOf(code, wf, h, Apply(db, wf, e))
  {
    var db' := Apply(db, wf, e);
    forall i | 0 <= i < |h|
      ensures SetAt(code, wf, h, db', i)
    {
      SetStays(code, wf, h, db, e, i);
    }
    forall k, f | (wf, k, f) in db'.history
      ensures HasWriter(code, wf, h, k, f, db'.history[(wf, k, f)])
    {
      if e.Event? && k == e.key && f == e.f {
        assert h[..|h|] == h;
        assert WrittenBy(code, wf, h, k, f, db'.history[(wf, k, f)], |h|);
      }
    }
  }

  /** A workflow-level operation sets the event its code names to the value its code gives. */
  lemma OperationKeepsEvents(code: Code, wf: Id, h: seq<Res>, res: Res, db: Db, e: Effect)
    requires EventsOf(code, wf, h, db)
    requires var a := code(wf, h);
             if a.WriteStream? then e == Entry(NextFid(code, wf, h), a.key, a.value)
             else if a.SetEvent? then e == Event(NextFid(code, wf, h), a.key, a.value)
             else e == Nothing
    ensures EventsOf(code, wf, h + [res], Apply(db, wf, e))
  {
    var h', db' := h + [res], Apply(db, wf, e);
    FidSnoc(code, wf, h, res);
    forall i | 0 <= i < |h'|
      ensures SetAt(code, wf, h', db', i)
    {
      if i < |h| {
        SetStays(code, wf, h, db, e, i);
        SetInLongerTrace(code, wf, h, res, db', i);
      }
    }
    forall k, f | (wf, k, f) in db'.history
      ensures HasWriter(code, wf, h', k, f, db'.history[(wf, k, f)])
    {
      if e.Event? && k == e.key && f == e.f {
        assert WrittenBy(code, wf, h', k, f, e.value, |h|);
      } else {
        WriterInLongerTrace(code, wf, h, res, k, f, db.history[(wf, k, f)]);
      }
    }
  }

  lemma EffectKeepsEvents(code: Code, wf: Id, h: seq<Res>, h': seq<Res>, e: Effect, db: Db, db': Db)
    requires EventsOf(code, wf, h, db) && EffectFits(code, wf, h, h', e)
    requires SameOutputTables(db', Apply(db, wf, e))
    ensures EventsOf(code, wf, h', db')
  {
    if h' == h {
      StepKeepsEvents(code, wf, h, db, e);
    } else {
      var res :| h' == h + [res];
      OperationKeepsEvents(code, wf, h, res, db, e);
    }
    EventsKept(code, wf, h', Apply(db, wf, e), db');
  }

  lemma MoveKeepsEvents(code: Code, s: State, s': State, wf: Id, m: Move, w: Id)
    requires WorkflowStep(code, s, s', wf, m) && ReplayInv(code, s, w)
    requires EventsOf(code, w, Log(s, w), s.db)
    ensures EventsOf(code, w, Log(s', w), s'.db)
  {
    var e := EffectOf(code, s, wf, m);
    EffectIs(code, s, s', wf, m);
    if w != wf {
      ApplyElsewhere(s.db, wf, e, w);
      LogElsewhere(code, s, s', wf, m, w);
      EventsKept(code, w, Log(s, w), s.db, s'.db);
    } else {
      EffectCases(code, s, s', wf, m);
      EffectKeepsEvents(code, w, Log(s, w), Log(s', w), e, s.db, s'.db);
    }
  }

  lemma {:induction false} RunKeepsEvents(code: Code, run: seq<State>, i: nat, wf: Id)
    requires Run(code, run) && i < |run| && wf !in run[i].unlogged
    ensures EventsOf(code, wf, Log(run[i], wf), run[i].db)
  {
    if i > 0 {
      var s, s' := run[i - 1], run[i];
      assert StepAt(code, run, i - 1);
      RunKeepsKernelInv(code, run, i - 1);
      if StatusStep(code, s, s') {
        RunKeepsEvents(code, run, i - 1, wf);
        EventsKept(code, wf, Log(s, wf), s.db, s'.db);
      } else {
        var w, m :| WorkflowStep(code, s, s', w, m);
        UnloggedGrows(code, s, s', w, m);
        RunKeepsEvents(code, run, i - 1, wf);
        assert ReplayInv(code, s, wf);
        MoveKeepsEvents(code, s, s', w, m, wf);
      }
    }
  }

  // ----- main result -----

  /** After operation `j` of the trace nothing sets `key`: no later operation, and no step, which
      would have left a row under its function id. */
  ghost predicate NotSetAfter(code: Code, wf: Id, h: seq<Res>, db: Db, key: string, j: nat) {
    forall m :: j < m <= |h| ==> NotSetAt(code, wf, h, db, key, m)
  }

  ghost predicate NotSetAt(code: Code, wf: Id, h: seq<Res>, db: Db, key: string, m: nat)
    requires m <= |h|
  {
    var a := code(wf, h[..m]);
    && (m < |h| && a.SetEvent? ==> a.key != key)
    && (a.RunStep? ==> (wf, key, Fid(code, wf, h, m) + 1) !in db.history)
  }

  lemma LastSetIsCurrent(code: Code, wf: Id, h: seq<Res>, db: Db, j: nat)
    requires EventsOf(code, wf, h, db) && EventsLatest(wf, db)
    requires j < |h| && code(wf, h[..j]).SetEvent? && NotSetAfter(code, wf, h, db, code(wf, h[..j]).key, j)
    ensures var a := code(wf, h[..j]); (wf, a.key) in db.events && db.events[(wf, a.key)] == a.value
  {
    var a, f := code(wf, h[..j]), Fid(code, wf, h, j) + 1;
    assert SetAt(code, wf, h, db, j);
    var g: nat :| Latest(db.history, wf, a.key, db.events[(wf, a.key)], g);
    var i: nat :| WrittenBy(code, wf, h, a.key, g, db.history[(wf, a.key, g)], i);
    assert i > j ==> NotSetAt(code, wf, h, db, a.key, i);
    if i < j {
      FidIncreasing(code, wf, h, i, j);
    }
  }

  /** Events. In every reachable state, for a workflow that was only shown recorded results: the history
      row of each set of its trace holds exactly the value set, and when nothing set the key after
      it, that is the event's current value. */
  lemma EventsHoldWhatWasSet(code: Code, run: seq<State>, i: nat, wf: Id, h: seq<Res>, j: nat)
    requires Run(code, run) && i < |run| && wf !in run[i].unlogged && IsTrace(code, wf, h, run[i].db.ops)
    requires j < |h| && code(wf, h[..j]).SetEvent?
    ensures var db, a, f := run[i].db, code(wf, h[..j]), Fid(code, wf, h, j) + 1;
            && (wf, a.key, f) in db.history && db.history[(wf, a.key, f)] == a.value
            && (NotSetAfter(code, wf, h, db, a.key, j) ==>
                  (wf, a.key) in db.events && db.events[(wf, a.key)] == a.value)
  {
    RunKeepsEvents(code, run, i, wf);
    RunKeepsOutputsInv(code, run, i);
    assert ReplayInv(code, run[i], wf);
    TraceUnique(code, wf, h, Log(run[i], wf), run[i].db.ops);
    assert SetAt(code, wf, h, run[i].db, j);
    if NotSetAfter(code, wf, h, run[i].db, code(wf, h[..j]).key, j) {
      LastSetIsCurrent(code, wf, h, run[i].db, j);
    }
  }
}
