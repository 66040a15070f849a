/** Streams and events over every run of the kernel. */
module Outputs {
  import opened SystemTables
  import opened OperationLog
  import opened Kernel
  import opened Replay

  // ----- offsets -----

  /** The offsets of a stream are 0 .. n-1, without gaps. */
  ghost predicate Contiguous(streams: StreamTable, wf: Id, key: string) {
    forall o: nat :: (wf, key, o) in streams <==> o < NextOffset(streams, wf, key)
  }

  ghost predicate Gapless(db: Db, wf: Id) {
    forall key :: Contiguous(db.streams, wf, key)
  }

  lemma NextOffsetIs(streams: StreamTable, wf: Id, key: string, n: nat)
    requires forall o: nat :: (wf, key, o) in streams <==> o < n
    ensures NextOffset(streams, wf, key) == n
  {
    var s := Offsets(streams, wf, key);
    assert forall o: nat :: (wf, key, o) in streams <==> o in s;
    if n > 0 {
      assert n - 1 in s;
    }
  }

  lemma AppendKeepsContiguous(db: Db, wf: Id, fid: nat, key: string, value: Value, w: Id, k: string)
    requires Contiguous(db.streams, w, k) && Contiguous(db.streams, wf, key)
    ensures Contiguous(Append(db, wf, fid, key, value).streams, w, k)
    ensures (wf, key, NextOffset(db.streams, wf, key)) !in db.streams
  {
    var n := NextOffset(db.streams, w, k);
    if w == wf && k == key {
      NextOffsetIs(Append(db, wf, fid, key, value).streams, w, k, n + 1);
    } else {
      NextOffsetIs(Append(db, wf, fid, key, value).streams, w, k, n);
    }
  }

  // ----- what one workflow has written -----

  /** Rows are written under the function ids of the trace, or by the step at its end. */
  ghost predicate FidOk(code: Code, wf: Id, h: seq<Res>, f: nat) {
    0 < f < NextFid(code, wf, h) || (f == NextFid(code, wf, h) && code(wf, h).RunStep?)
  }

  ghost predicate RowsOk(code: Code, wf: Id, h: seq<Res>, db: Db) {
    && (forall k, o :: (wf, k, o) in db.streams ==> FidOk(code, wf, h, db.streams[(wf, k, o)].fid))
    && (forall k, f :: (wf, k, f) in db.history ==> FidOk(code, wf, h, f))
  }

  /** Values appear in a stream in the order of the operations that wrote them. */
  ghost predicate InOrder(wf: Id, streams: StreamTable) {
    forall k, o, p :: o < p && (wf, k, o) in streams && (wf, k, p) in streams
                      ==> streams[(wf, k, o)].fid <= streams[(wf, k, p)].fid
  }

  /** The row at `(k, o)` is the only one written under function id `f`, and holds `v`. */
  ghost predicate OnlyRow(wf: Id, streams: StreamTable, f: nat, v: Value, k: string, o: nat) {
    && (wf, k, o) in streams && streams[(wf, k, o)] == StreamRow(v, f)
    && forall k', o' :: (wf, k', o') in streams && streams[(wf, k', o')].fid == f ==> k' == k && o' == o
  }

  ghost predicate HasOnlyRow(wf: Id, streams: StreamTable, f: nat, v: Value, k: string) {
    exists o :: OnlyRow(wf, streams, f, v, k, o)
  }

  /** A write of the trace has exactly one row, holding its value. */
  ghost predicate WrittenOnce(code: Code, wf: Id, h: seq<Res>, streams: StreamTable, i: nat)
    requires i < |h|
  {
    var a := code(wf, h[..i]);
    a.WriteStream? ==> HasOnlyRow(wf, streams, Fid(code, wf, h, i) + 1, a.value, a.key)
  }

  /** The value of an event is the one its history holds under the greatest function id. */
  ghost predicate Latest(history: map<(Id, string, nat), Value>, wf: Id, k: string, v: Value, f: nat) {
    && (wf, k, f) in history && history[(wf, k, f)] == v
    && forall g :: (wf, k, g) in history ==> g <= f
  }

  ghost predicate EventsLatest(wf: Id, db: Db) {
    && (forall k :: (wf, k) in db.events ==> exists f :: Latest(db.history, wf, k, db.events[(wf, k)], f))
    && (forall k, f :: (wf, k, f) in db.history ==> (wf, k) in db.events)
  }

  ghost predicate OutputsOf(code: Code, wf: Id, h: seq<Res>, db: Db) {
    && RowsOk(code, wf, h, db) && InOrder(wf, db.streams) && EventsLatest(wf, db)
    && forall i :: 0 <= i < |h| ==> WrittenOnce(code, wf, h, db.streams, i)
  }

  // ----- preservation -----

  lemma FidOkGrows(code: Code, wf: Id, h: seq<Res>, res: Res, f: nat)
    requires FidOk(code, wf, h, f)
    ensures 0 < f < NextFid(code, wf, h + [res])
  {
    FidSnoc(code, wf, h, res);
  }

  /** Another workflow's rows do not matter. */
  ghost predicate SameOutputs(db: Db, db': Db, wf: Id) {
    && (forall k, o :: (wf, k, o) in db.streams <==> (wf, k, o) in db'.streams)
    && (forall k, o :: (wf, k, o) in db.streams ==> db'.streams[(wf, k, o)] == db.streams[(wf, k, o)])
    && (forall k, f :: (wf, k, f) in db.history <==> (wf, k, f) in db'.history)
    && (forall k, f :: (wf, k, f) in db.history ==> db'.history[(wf, k, f)] == db.history[(wf, k, f)])
    && (forall k :: (wf, k) in db.events <==> (wf, k) in db'.events)
    && (forall k :: (wf, k) in db.events ==> db'.events[(wf, k)] == db.events[(wf, k)])
  }

  lemma OutputsKept(code: Code, wf: Id, h: seq<Res>, db: Db, db': Db)
    requires OutputsOf(code, wf, h, db) && SameOutputs(db, db', wf)
    ensures OutputsOf(code, wf, h, db')
  {
    forall k | (wf, k) in db'.events
      ensures exists f :: Latest(db'.history, wf, k, db'.events[(wf, k)], f)
    {
      var f :| Latest(db.history, wf, k, db.events[(wf, k)], f);
      assert Latest(db'.history, wf, k, db'.events[(wf, k)], f);
    }
    forall i | 0 <= i < |h|
      ensures WrittenOnce(code, wf, h, db'.streams, i)
    {
      assert WrittenOnce(code, wf, h, db.streams, i);
      var a, f := code(wf, h[..i]), Fid(code, wf, h, i) + 1;
      if a.WriteStream? {
        var o :| OnlyRow(wf, db.streams, f, a.value, a.key, o);
        assert OnlyRow(wf, db'.streams, f, a.value, a.key, o);
      }
    }
  }

  /** A row appended under the next function id keeps what was written before it. */
  lemma AppendAtEnd(code: Code, wf: Id, h: seq<Res>, db: Db, key: string, value: Value)
    requires OutputsOf(code, wf, h, db) && Contiguous(db.streams, wf, key)
    ensures var f, db' := NextFid(code, wf, h), Append(db, wf, NextFid(code, wf, h), key, value);
            && InOrder(wf, db'.streams) && EventsLatest(wf, db')
            && (forall i :: 0 <= i < |h| ==> WrittenOnce(code, wf, h, db'.streams, i))
            && (forall k, o :: (wf, k, o) in db'.streams ==>
                  FidOk(code, wf, h, db'.streams[(wf, k, o)].fid) || db'.streams[(wf, k, o)].fid == f)
            && (code(wf, h).WriteStream? ==> OnlyRow(wf, db'.streams, f, value, key, NextOffset(db.streams, wf, key)))
  {
    var f, n := NextFid(code, wf, h), NextOffset(db.streams, wf, key);
    var db' := Append(db, wf, f, key, value);
    AppendKeepsContiguous(db, wf, f, key, value, wf, key);
    forall i | 0 <= i < |h|
      ensures WrittenOnce(code, wf, h, db'.streams, i)
    {
      assert WrittenOnce(code, wf, h, db.streams, i);
      FidIncreasing(code, wf, h, i, |h|);
      var a, g := code(wf, h[..i]), Fid(code, wf, h, i) + 1;
      if a.WriteStream? {
        var o :| OnlyRow(wf, db.streams, g, a.value, a.key, o);
        assert OnlyRow(wf, db'.streams, g, a.value, a.key, o);
      }
    }
  }

  lemma EventAtEnd(code: Code, wf: Id, h: seq<Res>, db: Db, key: string, value: Value)
    requires OutputsOf(code, wf, h, db)
    ensures var f, db' := NextFid(code, wf, h), PutEvent(db, wf, NextFid(code, wf, h), key, value);
            && EventsLatest(wf, db')
            && (forall k, g :: (wf, k, g) in db'.history ==> FidOk(code, wf, h, g) || g == f)
  {
    var f, db' := NextFid(code, wf, h), PutEvent(db, wf, NextFid(code, wf, h), key, value);
    forall k | (wf, k) in db'.events
      ensures exists g :: Latest(db'.history, wf, k, db'.events[(wf, k)], g)
    {
      if k == key {
        assert Latest(db'.history, wf, k, db'.events[(wf, k)], f);
      } else {
        var g :| Latest(db.history, wf, k, db.events[(wf, k)], g);
        assert Latest(db'.history, wf, k, db'.events[(wf, k)], g);
      }
    }
  }

  // ----- transitions -----

  /** What a transition writes to streams and events. */
  datatype Effect = Nothing | Entry(f: nat, key: string, value: Value) | Event(f: nat, key: string, value: Value)

  function EffectOf(code: Code, s: State, wf: Id, m: Move): Effect {
    if wf !in s.live then Nothing
    else
      var e := s.live[wf];
      match m
      case StepAppendM(k, v) => if e.phase.Running? then Entry(e.phase.f, k, v) else Nothing
      case StepEventM(k, v) => if e.phase.Running? then Event(e.phase.f, k, v) else Nothing
      case SetEventM(_, _) =>
        var a := Next(code, s, wf);
        if a.SetEvent? then Event(e.fid + 1, a.key, a.value) else Nothing
      case WriteStreamM(_, _) =>
        var a := Next(code, s, wf);
        if a.WriteStream? then Entry(e.fid + 1, a.key, a.value) else Nothing
      case _ => Nothing
  }

  ghost function Apply(db: Db, wf: Id, e: Effect): Db {
    match e
    case Nothing => db
    case Entry(f, k, v) => Append(db, wf, f, k, v)
    case Event(f, k, v) => PutEvent(db, wf, f, k, v)
  }

  predicate SameOutputTables(db: Db, db': Db) {
    db.streams == db'.streams && db.history == db'.history && db.events == db'.events
  }

  lemma EffectIs(code: Code, s: State, s': State, wf: Id, m: Move)
    requires WorkflowStep(code, s, s', wf, m)
    ensures SameOutputTables(s'.db, Apply(s.db, wf, EffectOf(code, s, wf, m)))
  {
  }

  lemma ApplyElsewhere(db: Db, wf: Id, e: Effect, w: Id)
    requires w != wf
    ensures SameOutputs(db, Apply(db, wf, e), w)
  {
  }

  lemma ApplyKeepsContiguous(db: Db, wf: Id, e: Effect, w: Id, k: string)
    requires Contiguous(db.streams, w, k)
    requires e.Entry? ==> Contiguous(db.streams, wf, e.key)
    ensures Contiguous(Apply(db, wf, e).streams, w, k)
  {
    if e.Entry? {
      AppendKeepsContiguous(db, wf, e.f, e.key, e.value, w, k);
    }
  }

  /** A step at the end of the trace may write any number of rows and events. */
  lemma StepEffect(code: Code, wf: Id, h: seq<Res>, db: Db, e: Effect)
    requires OutputsOf(code, wf, h, db) && code(wf, h).RunStep?
    requires e.Nothing? || e.f == NextFid(code, wf, h)
    requires e.Entry? ==> Contiguous(db.streams, wf, e.key)
    ensures OutputsOf(code, wf, h, Apply(db, wf, e))
  {
    match e
    case Nothing =>
    case Entry(f, k, v) => AppendAtEnd(code, wf, h, db, k, v);
    case Event(f, k, v) =>
      EventAtEnd(code, wf, h, db, k, v);
      forall i | 0 <= i < |h|
        ensures WrittenOnce(code, wf, h, Apply(db, wf, e).streams, i)
      {
        assert WrittenOnce(code, wf, h, db.streams, i);
      }
  }

  /** A workflow-level operation extends the trace and makes its one write. */
  lemma OperationEffect(code: Code, wf: Id, h: seq<Res>, res: Res, db: Db, e: Effect)
    requires OutputsOf(code, wf, h, db)
    requires var a := code(wf, h);
             if a.WriteStream? then e == Entry(NextFid(code, wf, h), a.key, a.value)
             else if a.SetEvent? then e == Event(NextFid(code, wf, h), a.key, a.value)
             else e == Nothing
    requires e.Entry? ==> Contiguous(db.streams, wf, e.key)
    ensures OutputsOf(code, wf, h + [res], Apply(db, wf, e))
  {
    var h', db' := h + [res], Apply(db, wf, e);
    if e.Entry? {
      AppendAtEnd(code, wf, h, db, e.key, e.value);
      assert OnlyRow(wf, db'.streams, e.f, e.value, e.key, NextOffset(db.streams, wf, e.key));
    } else if e.Event? {
      EventAtEnd(code, wf, h, db, e.key, e.value);
    }
    FidSnoc(code, wf, h, res);
    forall f | FidOk(code, wf, h, f) || f == NextFid(code, wf, h)
      ensures FidOk(code, wf, h', f)
    {
      if FidOk(code, wf, h, f) {
        FidOkGrows(code, wf, h, res, f);
      }
    }
    forall i | 0 <= i < |h'|
      ensures WrittenOnce(code, wf, h', db'.streams, i)
    {
      if i < |h| {
        FidPrefix(code, wf, h, h', i);
        assert WrittenOnce(code, wf, h, db.streams, i);
        assert WrittenOnce(code, wf, h, db'.streams, i);
      }
    }
  }

  /** Either the log grows by the operation at its end, or only a running step has an effect. */
  ghost predicate EffectFits(code: Code, wf: Id, h: seq<Res>, h': seq<Res>, e: Effect) {
    var a := code(wf, h);
    || (exists res :: h' == h + [res]
          && if a.WriteStream? then e == Entry(NextFid(code, wf, h), a.key, a.value)
             else if a.SetEvent? then e == Event(NextFid(code, wf, h), a.key, a.value)
             else e == Nothing)
    || (h' == h && (e == Nothing || (a.RunStep? && e.f == NextFid(code, wf, h))))
  }

  lemma RecordStepFits(code: Code, s: State, s': State, wf: Id, x: Option<string>, acked: bool)
    requires ReplayInv(code, s, wf) && RecordStep(code, s, s', wf, x, acked)
    ensures EffectFits(code, wf, Log(s, wf), Log(s', wf), Nothing)
  {
    var h, e := Log(s, wf), s.live[wf];
    if (wf, e.phase.f) !in s.db.ops {
      LookupInLog(code, wf, h, s.db.ops, |e.hist|);
      assert h[..|e.hist|] == e.hist;
      assert Log(s', wf) == h + [e.phase.res];
    }
  }

  lemma OperationFits(code: Code, s: State, s': State, wf: Id, m: Move)
    requires ReplayInv(code, s, wf) && WorkflowStep(code, s, s', wf, m)
    requires m.SendM? || m.SetEventM? || m.WriteStreamM?
    ensures EffectFits(code, wf, Log(s, wf), Log(s', wf), EffectOf(code, s, wf, m))
  {
    FreshAtEnd(code, s, wf);
    assert Log(s', wf) == Log(s, wf) + [Unit];
  }

  lemma RecvFits(code: Code, s: State, s': State, wf: Id, id: string, x: Option<string>, acked: bool)
    requires ReplayInv(code, s, wf) && DoRecv(code, s, s', wf, id, x, acked)
    ensures EffectFits(code, wf, Log(s, wf), Log(s', wf), Nothing)
  {
  }

  lemma BodyFits(code: Code, s: State, s': State, wf: Id, m: Move)
    requires ReplayInv(code, s, wf) && WorkflowStep(code, s, s', wf, m)
    requires !m.RecordStepM? && !m.SendM? && !m.SetEventM? && !m.WriteStreamM? && !m.RecvM?
    ensures EffectFits(code, wf, Log(s, wf), Log(s', wf), EffectOf(code, s, wf, m))
  {
  }

  lemma EffectCases(code: Code, s: State, s': State, wf: Id, m: Move)
    requires ReplayInv(code, s, wf) && WorkflowStep(code, s, s', wf, m)
    ensures EffectFits(code, wf, Log(s, wf), Log(s', wf), EffectOf(code, s, wf, m))
  {
    if m.RecordStepM? {
      RecordStepFits(code, s, s', wf, m.executor, m.acked);
    } else if m.SendM? || m.SetEventM? || m.WriteStreamM? {
      OperationFits(code, s, s', wf, m);
    } else if m.RecvM? {
      RecvFits(code, s, s', wf, m.id, m.executor, m.acked);
    } else {
      BodyFits(code, s, s', wf, m);
    }
  }

  lemma EffectKeepsOutputs(code: Code, wf: Id, h: seq<Res>, h': seq<Res>, e: Effect, db: Db, db': Db)
    requires OutputsOf(code, wf, h, db) && Gapless(db, wf)
    requires EffectFits(code, wf, h, h', e) && SameOutputTables(db', Apply(db, wf, e))
    ensures OutputsOf(code, wf, h', db')
  {
    assert e.Entry? ==> Contiguous(db.streams, wf, e.key);
    if h' == h {
      if e != Nothing {
        StepEffect(code, wf, h, db, e);
      }
    } else {
      var res :| h' == h + [res];
      OperationEffect(code, wf, h, res, db, e);
    }
    OutputsKept(code, wf, h', Apply(db, wf, e), db');
  }

  lemma MoveKeepsOutputs(code: Code, s: State, s': State, wf: Id, m: Move, w: Id)
    requires WorkflowStep(code, s, s', wf, m) && ReplayInv(code, s, w)
    requires OutputsOf(code, w, Log(s, w), s.db)
    requires Gapless(s.db, w)
    ensures OutputsOf(code, w, Log(s', w), s'.db)
  {
    var e := EffectOf(code, s, wf, m);
    EffectIs(code, s, s', wf, m);
    if w != wf {
      ApplyElsewhere(s.db, wf, e, w);
      LogElsewhere(code, s, s', wf, m, w);
      OutputsKept(code, w, Log(s, w), s.db, s'.db);
    } else {
      EffectCases(code, s, s', wf, m);
      EffectKeepsOutputs(code, w, Log(s, w), Log(s', w), e, s.db, s'.db);
    }
  }

  // ----- main results -----

  ghost predicate OutputsInv(code: Code, s: State) {
    && KernelInv(code, s)
    && (forall w :: Gapless(s.db, w))
    && forall w :: w !in s.unlogged ==> OutputsOf(code, w, Log(s, w), s.db)
  }

  lemma StepKeepsOutputsInv(code: Code, s: State, s': State)
    requires OutputsInv(code, s) && Step(code, s, s')
    ensures OutputsInv(code, s')
  {
    StepKeepsKernelInv(code, s, s');
    if StatusStep(code, s, s') {
      forall w
        ensures Gapless(s'.db, w)
      {
        assert Gapless(s.db, w);
      }
      forall w | w !in s'.unlogged
        ensures OutputsOf(code, w, Log(s', w), s'.db)
      {
        OutputsKept(code, w, Log(s, w), s.db, s'.db);
      }
    } else {
      var wf, m :| WorkflowStep(code, s, s', wf, m);
      UnloggedGrows(code, s, s', wf, m);
      forall w, k
        ensures Contiguous(s'.db.streams, w, k)
      {
        assert Gapless(s.db, w) && Gapless(s.db, wf);
        var e := EffectOf(code, s, wf, m);
        EffectIs(code, s, s', wf, m);
        assert e.Entry? ==> Contiguous(s.db.streams, wf, e.key);
        ApplyKeepsContiguous(s.db, wf, e, w, k);
      }
      forall w | w !in s'.unlogged
        ensures OutputsOf(code, w, Log(s', w), s'.db)
      {
        assert ReplayInv(code, s, w);
        MoveKeepsOutputs(code, s, s', wf, m, w);
      }
    }
  }

  lemma {:induction false} RunKeepsOutputsInv(code: Code, run: seq<State>, i: nat)
    requires Run(code, run) && i < |run|
    ensures OutputsInv(code, run[i])
  {
    RunKeepsKernelInv(code, run, i);
    if i > 0 {
      RunKeepsOutputsInv(code, run, i - 1);
      assert StepAt(code, run, i - 1);
      StepKeepsOutputsInv(code, run[i - 1], run[i]);
    } else {
      forall w, k
        ensures Contiguous(run[0].db.streams, w, k)
      {
        NextOffsetIs(run[0].db.streams, w, k, 0);
      }
      forall w
        ensures OutputsOf(code, w, Log(run[0], w), run[0].db)
      {
        assert Log(run[0], w) == [];
      }
    }
  }

  /** Streams. In every reachable state the offsets of a stream have no gaps; and for a
      workflow that was only shown checkpointed results, each write of its trace has exactly
      one row, and values stand in the order of the operations that wrote them. */
  lemma StreamsExactlyOnce(code: Code, run: seq<State>, i: nat, wf: Id)
    requires Run(code, run) && i < |run|
    ensures Gapless(run[i].db, wf)
    ensures wf !in run[i].unlogged ==>
              forall h :: IsTrace(code, wf, h, run[i].db.ops) ==>
                && InOrder(wf, run[i].db.streams)
                && forall j :: 0 <= j < |h| ==> WrittenOnce(code, wf, h, run[i].db.streams, j)
  {
    RunKeepsOutputsInv(code, run, i);
    if wf !in run[i].unlogged {
      assert ReplayInv(code, run[i], wf);
      forall h | IsTrace(code, wf, h, run[i].db.ops)
        ensures h == Log(run[i], wf)
      {
        TraceUnique(code, wf, h, Log(run[i], wf), run[i].db.ops);
      }
    }
  }
}
