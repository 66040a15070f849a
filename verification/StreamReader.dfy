/** Reading a stream while it is being written. */
module StreamReader {
  import opened SystemTables
  import opened Kernel
  import opened Outputs

  /** Rows of a stream, once written, stay. */
  ghost predicate Kept(db: Db, db': Db, wf: Id, key: string) {
    forall o :: (wf, key, o) in db.streams ==>
      (wf, key, o) in db'.streams && db'.streams[(wf, key, o)] == db.streams[(wf, key, o)]
  }

  lemma StepKeepsRows(code: Code, s: State, s': State, wf: Id, key: string)
    requires Step(code, s, s') && forall w :: Gapless(s.db, w)
    ensures Kept(s.db, s'.db, wf, key)
  {
    if !StatusStep(code, s, s') {
      var w, m :| WorkflowStep(code, s, s', w, m);
      var e := EffectOf(code, s, w, m);
      EffectIs(code, s, s', w, m);
      if e.Entry? {
        assert Gapless(s.db, w);
        AppendKeepsContiguous(s.db, w, e.f, e.key, e.value, w, e.key);
      }
    }
  }

  lemma {:induction false} RunKeepsRows(code: Code, run: seq<State>, i: nat, j: nat, wf: Id, key: string)
    requires Run(code, run) && i <= j < |run|
    ensures Kept(run[i].db, run[j].db, wf, key)
  {
    if i < j {
      RunKeepsRows(code, run, i, j - 1, wf, key);
      RunKeepsOutputsInv(code, run, j - 1);
      assert StepAt(code, run, j - 1);
      StepKeepsRows(code, run[j - 1], run[j], wf, key);
    }
  }

  /** The databases a reader sees, one a query, each later than the one before. */
  ghost predicate Growing(seen: seq<Db>, wf: Id, key: string) {
    forall i, j :: 0 <= i < j < |seen| ==> Kept(seen[i], seen[j], wf, key)
  }

  /** The stream has no gaps in any of them. */
  ghost predicate NoGaps(seen: seq<Db>, wf: Id, key: string) {
    forall i :: 0 <= i < |seen| ==> Contiguous(seen[i].streams, wf, key)
  }

  /** Any reader of a run sees a stream that grows and has no gaps. */
  lemma RunIsGrowing(code: Code, run: seq<State>, at: seq<nat>, wf: Id, key: string)
    requires Run(code, run)
    requires forall i :: 0 <= i < |at| ==> at[i] < |run|
    requires forall i, j :: 0 <= i < j < |at| ==> at[i] <= at[j]
    ensures var seen := seq(|at|, i requires 0 <= i < |at| => run[at[i]].db);
            Growing(seen, wf, key) && NoGaps(seen, wf, key)
  {
    var seen := seq(|at|, i requires 0 <= i < |at| => run[at[i]].db);
    forall i, j | 0 <= i < j < |seen|
      ensures Kept(seen[i], seen[j], wf, key)
    {
      RunKeepsRows(code, run, at[i], at[j], wf, key);
    }
    forall i | 0 <= i < |seen|
      ensures Contiguous(seen[i].streams, wf, key)
    {
      RunKeepsOutputsInv(code, run, at[i]);
      assert Gapless(run[at[i]].db, wf);
    }
  }

  ghost predicate ReadFrom(db: Db, wf: Id, key: string, out: seq<Value>) {
    forall o :: 0 <= o < |out| ==>
      && (wf, key, o) in db.streams && db.streams[(wf, key, o)].value == out[o]
      && out[o] != STREAM_CLOSED_SENTINEL
  }

  /** All the stream has in this database. */
  ghost predicate AllRead(db: Db, wf: Id, key: string, out: seq<Value>) {
    ReadFrom(db, wf, key, out) && forall o: nat :: (wf, key, o) in db.streams <==> o < |out|
  }

  /** Values of the stream that were not read. */
  ghost predicate Missing(db: Db, wf: Id, key: string, out: seq<Value>) {
    exists o: nat :: o >= |out| && (wf, key, o) in db.streams
  }

  /** The loop ended because the workflow is gone or inactive: query `i` found no next value, and
      query `i + 1` asked for the status. */
  ghost predicate EndedAt(seen: seq<Db>, wf: Id, key: string, out: seq<Value>, i: nat) {
    && i + 1 < |seen| && ReadFrom(seen[i], wf, key, out) && (wf, key, |out|) !in seen[i].streams
    && (wf in seen[i + 1].status ==> !Active(seen[i + 1].status[wf]))
  }

  /** What is lost when the loop ends on the workflow's status. At the last read nothing was missing;
      by the status query something is if and only if the next offset has been written, in
      between. */
  lemma LostInBetween(seen: seq<Db>, wf: Id, key: string, out: seq<Value>, i: nat)
    requires NoGaps(seen, wf, key) && EndedAt(seen, wf, key, out, i)
    ensures AllRead(seen[i], wf, key, out)
    ensures Missing(seen[i + 1], wf, key, out) <==> (wf, key, |out|) in seen[i + 1].streams
  {
    assert Contiguous(seen[i].streams, wf, key) && Contiguous(seen[i + 1].streams, wf, key);
    assert forall o: nat :: (wf, key, o) in seen[i].streams ==> o < |out|;
  }

  lemma StillRead(seen: seq<Db>, wf: Id, key: string, out: seq<Value>, i: nat, j: nat)
    requires Growing(seen, wf, key) && i <= j < |seen| && ReadFrom(seen[i], wf, key, out)
    ensures ReadFrom(seen[j], wf, key, out)
  {
    assert i < j ==> Kept(seen[i], seen[j], wf, key);
  }

  datatype End = Closed | Terminated | StillPolling

  // ----- what reading is -----

  /** What a query answered: the value at the next offset, that there is none, or, asked after that,
      that the workflow still runs. */
  datatype Query = NextValue | NoValue | StillActive

  ghost function ValuesIn(log: seq<Query>): nat {
    if log == [] then 0 else ValuesIn(log[..|log| - 1]) + if log[|log| - 1].NextValue? then 1 else 0
  }

  ghost predicate Gone(db: Db, wf: Id) {
    wf !in db.status || !(db.status[wf].status.Enqueued? || db.status[wf].status.Pending?)
  }

  /** Query `i`: the one after a missing value asks for the status, every other for the next value. */
  ghost predicate QueryOk(seen: seq<Db>, wf: Id, key: string, out: seq<Value>, log: seq<Query>, i: nat)
    requires i < |log| <= |seen|
  {
    var o := ValuesIn(log[..i]);
    && (log[i].StillActive? <==> i > 0 && log[i - 1].NoValue?)
    && match log[i]
       case NextValue =>
         && o < |out| && (wf, key, o) in seen[i].streams && seen[i].streams[(wf, key, o)].value == out[o]
         && out[o] != STREAM_CLOSED_SENTINEL
       case NoValue => (wf, key, o) !in seen[i].streams
       case StillActive => !Gone(seen[i], wf)
  }

  /** The queries answered in `log`, all in order, yielded `out`; and the loop ended as `end` says: on the
      sentinel, on a workflow that is gone or inactive, or not before all of `seen` was queried. */
  ghost predicate IsReading(seen: seq<Db>, wf: Id, key: string, out: seq<Value>, log: seq<Query>, end: End) {
    var n := |log|;
    && n <= |seen| && |out| == ValuesIn(log)
    && (forall i :: 0 <= i < n ==> QueryOk(seen, wf, key, out, log, i))
    && match end
       case StillPolling => n == |seen|
       case Closed =>
         && n < |seen| && !(n > 0 && log[n - 1].NoValue?)
         && (wf, key, |out|) in seen[n].streams && seen[n].streams[(wf, key, |out|)].value == STREAM_CLOSED_SENTINEL
       case Terminated => 0 < n < |seen| && log[n - 1].NoValue? && Gone(seen[n], wf)
  }

  /** The stream has `n` values and then the sentinel. */
  ghost predicate HoldsClosed(db: Db, wf: Id, key: string, n: nat) {
    && (forall o: nat :: o < n ==>
          (wf, key, o) in db.streams && db.streams[(wf, key, o)].value != STREAM_CLOSED_SENTINEL)
    && (wf, key, n) in db.streams && db.streams[(wf, key, n)].value == STREAM_CLOSED_SENTINEL
  }

  lemma KeptFromFirst(seen: seq<Db>, wf: Id, key: string, i: nat, o: nat)
    requires Growing(seen, wf, key) && i < |seen| && (wf, key, o) in seen[0].streams
    ensures (wf, key, o) in seen[i].streams && seen[i].streams[(wf, key, o)] == seen[0].streams[(wf, key, o)]
  {
    assert i > 0 ==> Kept(seen[0], seen[i], wf, key);
  }

  /** The first `k` queries all answer with a value. */
  ghost predicate AllValues(log: seq<Query>, k: nat) {
    k <= |log| && (forall i :: 0 <= i < k ==> log[i].NextValue?) && ValuesIn(log[..k]) == k
  }

  lemma OneMoreValue(seen: seq<Db>, wf: Id, key: string, out: seq<Value>, log: seq<Query>, end: End, n: nat, k: nat)
    requires Growing(seen, wf, key) && IsReading(seen, wf, key, out, log, end)
    requires |seen| > n && HoldsClosed(seen[0], wf, key, n) && k < n && AllValues(log, k)
    ensures AllValues(log, k + 1)
  {
    assert log[..|log|] == log;
    KeptFromFirst(seen, wf, key, k, k);
    assert k < |log| ==> QueryOk(seen, wf, key, out, log, k);
    assert k < |log|;
    assert log[..k + 1][..k] == log[..k];
  }

  lemma {:induction false} ValuesFirst(seen: seq<Db>, wf: Id, key: string, out: seq<Value>, log: seq<Query>, end: End,
                                       n: nat, k: nat)
    requires Growing(seen, wf, key) && IsReading(seen, wf, key, out, log, end)
    requires |seen| > n && HoldsClosed(seen[0], wf, key, n) && k <= n
    ensures AllValues(log, k)
  {
    if k > 0 {
      ValuesFirst(seen, wf, key, out, log, end, n, k - 1);
      OneMoreValue(seen, wf, key, out, log, end, n, k - 1);
    }
  }

  /** Progress. A reader that finds a closed stream of `n` values and asks more than `n` times yields
      exactly these values and ends on the sentinel. */
  lemma ClosedStreamIsRead(seen: seq<Db>, wf: Id, key: string, out: seq<Value>, log: seq<Query>, end: End, n: nat)
    requires Growing(seen, wf, key) && IsReading(seen, wf, key, out, log, end)
    requires |seen| > n && HoldsClosed(seen[0], wf, key, n)
    ensures end.Closed? && |out| == n
    ensures forall o :: 0 <= o < n ==> out[o] == seen[0].streams[(wf, key, o)].value
  {
    ValuesFirst(seen, wf, key, out, log, end, n, n);
    KeptFromFirst(seen, wf, key, n, n);
    assert log[..|log|] == log;
    assert n < |log| ==> QueryOk(seen, wf, key, out, log, n);
    assert |log| == n;
    forall o | 0 <= o < n
      ensures out[o] == seen[0].streams[(wf, key, o)].value
    {
      ValuesFirst(seen, wf, key, out, log, end, n, o);
      assert QueryOk(seen, wf, key, out, log, o);
      KeptFromFirst(seen, wf, key, o, o);
    }
  }

  /** The queries answered so far yielded `out`, which is still there. */
  ghost predicate Answered(seen: seq<Db>, wf: Id, key: string, out: seq<Value>, log: seq<Query>) {
    && |log| <= |seen| && |out| == ValuesIn(log)
    && (forall i :: 0 <= i < |log| ==> QueryOk(seen, wf, key, out, log, i))
    && (log != [] ==> ReadFrom(seen[|log| - 1], wf, key, out))
  }

  lemma StillThere(seen: seq<Db>, wf: Id, key: string, out: seq<Value>, log: seq<Query>)
    requires Growing(seen, wf, key) && Answered(seen, wf, key, out, log) && |log| < |seen|
    ensures ReadFrom(seen[|log|], wf, key, out) && ReadFrom(seen[|seen| - 1], wf, key, out)
  {
    if log != [] {
      StillRead(seen, wf, key, out, |log| - 1, |log|);
      StillRead(seen, wf, key, out, |log| - 1, |seen| - 1);
    }
  }

  /** One more query keeps what was read. */
  lemma QueryMore(seen: seq<Db>, wf: Id, key: string, out: seq<Value>, log: seq<Query>, more: seq<Value>, query: Query)
    requires Growing(seen, wf, key) && Answered(seen, wf, key, out, log) && |log| < |seen|
    requires more == [] || query.NextValue?
    requires |more| == if query.NextValue? then 1 else 0
    requires QueryOk(seen, wf, key, out + more, log + [query], |log|)
    ensures Answered(seen, wf, key, out + more, log + [query])
  {
    var log' := log + [query];
    assert log'[..|log|] == log;
    StillThere(seen, wf, key, out, log);
    forall i | 0 <= i < |log|
      ensures QueryOk(seen, wf, key, out + more, log', i)
    {
      assert log'[..i] == log[..i] && QueryOk(seen, wf, key, out, log, i);
    }
  }

  lemma QueryValue(seen: seq<Db>, wf: Id, key: string, out: seq<Value>, log: seq<Query>)
    requires Growing(seen, wf, key) && Answered(seen, wf, key, out, log) && |log| < |seen|
    requires (log == [] || !log[|log| - 1].NoValue?) && (wf, key, |out|) in seen[|log|].streams
    requires seen[|log|].streams[(wf, key, |out|)].value != STREAM_CLOSED_SENTINEL
    ensures Answered(seen, wf, key, out + [seen[|log|].streams[(wf, key, |out|)].value], log + [NextValue])
  {
    assert (log + [NextValue])[..|log|] == log;
    QueryMore(seen, wf, key, out, log, [seen[|log|].streams[(wf, key, |out|)].value], NextValue);
  }

  lemma QueryInVain(seen: seq<Db>, wf: Id, key: string, out: seq<Value>, log: seq<Query>, query: Query)
    requires Growing(seen, wf, key) && Answered(seen, wf, key, out, log) && |log| < |seen|
    requires match query
             case NextValue => false
             case NoValue => (log == [] || !log[|log| - 1].NoValue?) && (wf, key, |out|) !in seen[|log|].streams
             case StillActive => log != [] && log[|log| - 1].NoValue? && !Gone(seen[|log|], wf)
    ensures Answered(seen, wf, key, out, log + [query])
  {
    assert (log + [query])[..|log|] == log && out + [] == out;
    QueryMore(seen, wf, key, out, log, [], query);
  }

  /** The generator's loop: query the next offset; when it is absent query the workflow's
      status and stop if it is gone or no longer active. `log` is what each query answered. What was
      yielded is the stream's values in order from offset 0, none of them the sentinel, in the last
      database seen and so in any later one. When the loop ends on the sentinel nothing before it is
      missing; when it ends on the workflow's status, see `LostInBetween`. */
  method ReadStream(seen: seq<Db>, wf: Id, key: string) returns (out: seq<Value>, end: End, ghost log: seq<Query>)
    requires Growing(seen, wf, key)
    ensures IsReading(seen, wf, key, out, log, end)
    ensures seen == [] ==> out == [] && end.StillPolling?
    ensures seen != [] ==> ReadFrom(seen[|seen| - 1], wf, key, out)
    ensures end.Closed? ==>
              && seen != [] && (wf, key, |out|) in seen[|seen| - 1].streams
              && seen[|seen| - 1].streams[(wf, key, |out|)].value == STREAM_CLOSED_SENTINEL
    ensures end.Terminated? ==> exists i :: EndedAt(seen, wf, key, out, i)
  {
    out, log := [], [];
    end := StillPolling;
    var i, offset := 0, 0;
    while i < |seen|
      invariant 0 <= i <= |seen| && offset == |out| && |log| == i
      invariant i > 0 ==> !log[i - 1].NoValue? || i == |seen|
      invariant Answered(seen, wf, key, out, log)
    {
      StillThere(seen, wf, key, out, log);
      if (wf, key, offset) in seen[i].streams {
        var value := seen[i].streams[(wf, key, offset)].value;
        if value == STREAM_CLOSED_SENTINEL {
          assert i < |seen| - 1 ==> Kept(seen[i], seen[|seen| - 1], wf, key);
          end := Closed;
          return;
        }
        QueryValue(seen, wf, key, out, log);
        out, log := out + [value], log + [NextValue];
        offset := offset + 1;
        i := i + 1;
      } else {
        QueryInVain(seen, wf, key, out, log, NoValue);
        log := log + [NoValue];
        i := i + 1;
        if i < |seen| {
          if wf !in seen[i].status || !Active(seen[i].status[wf]) {
            assert EndedAt(seen, wf, key, out, i - 1);
            StillThere(seen, wf, key, out, log);
            end := Terminated;
            return;
          }
          QueryInVain(seen, wf, key, out, log, StillActive);
          log := log + [StillActive];
          i := i + 1;
        }
      }
    }
  }
}
