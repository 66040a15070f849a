/** Transactional steps: a body that runs in the application database, with its result kept
    there in `transaction_outputs` and again in the system database.

    Any number of executors may invoke the same (workflow, function id) at once, each may crash
    at any point, and a commit may succeed without its acknowledgement arriving. */
module Transactions {
  import opened SystemTables
  import opened OperationLog

  type Key = (Id, nat)

  /** A row of `transaction_outputs`. */
  datatype TxRow = TxRow(name: string, output: Option<Value>, error: Option<Value>)

  datatype TxResult = Returned(v: Value) | Raised(e: Value)

  /** Where one invocation stands. */
  datatype Pc =
    | Entered                            // nothing checked yet
    | Looping                            // no system record; top of the retry loop
    | InBody                             // inside the transaction, no application record
    | Failed(e: Value)                   // rolled back; the error is to be recorded
    | Recorded(row: TxRow)               // the application row is there; system record to be written
    | Finished(res: TxResult)
    | Aborted                            // conflict, cancellation, wrong name or lost acknowledgement

  datatype Invocation = Invocation(key: Key, name: string, pc: Pc)

  /** `effects` counts the commits of each body. `copied` are the system records that were
      there from the start, such as those a fork copies without their application rows. */
  datatype State = State(
    db: Db,
    txs: map<Key, TxRow>,
    calls: map<nat, Invocation>,
    effects: map<Key, nat>,
    copied: OpTable)

  function Effects(s: State, k: Key): nat {
    if k in s.effects then s.effects[k] else 0
  }

  function ToRecord(row: TxRow): OpRecord {
    OpRecord(row.name, row.output, row.error, None)
  }

  const NO_RESULT := "Output and error are both None"

  /** An error takes precedence over an output; a record with neither raises. */
  function ResultOf(output: Option<Value>, error: Option<Value>): TxResult {
    if error.Some? then Raised(error.value)
    else if output.Some? then Returned(output.value)
    else Raised(NO_RESULT)
  }

  function At(s: State, p: nat, pc: Pc): State
    requires p in s.calls
  {
    s.(calls := s.calls[p := s.calls[p].(pc := pc)])
  }

  // ----- transitions -----

  predicate Invoke(s: State, s': State, p: nat, k: Key, name: string) {
    p !in s.calls && s' == s.(calls := s.calls[p := Invocation(k, name, Entered)])
  }

  predicate Crash(s: State, s': State, p: nat) {
    s' == s.(calls := s.calls - {p})
  }

  /** The system database is consulted first, outside the transaction. */
  predicate SystemCheck(s: State, s': State, p: nat) {
    && p in s.calls && s.calls[p].pc.Entered?
    && var c := s.calls[p];
       s' == match CheckOperation(s.db, c.key.0, c.key.1, c.name)
             case Err(_) => At(s, p, Aborted)
             case Ok(None) => At(s, p, Looping)
             case Ok(Some(rec)) => At(s, p, Finished(ResultOf(rec.output, rec.error)))
  }

  /** First statement of the transaction: look for an application record. */
  predicate AppCheck(s: State, s': State, p: nat) {
    && p in s.calls && s.calls[p].pc.Looping?
    && var c := s.calls[p];
       s' == if c.key !in s.txs then At(s, p, InBody)
             else if s.txs[c.key].name != c.name then At(s, p, Aborted)
             else At(s, p, Recorded(s.txs[c.key]))
  }

  datatype CommitAck = Acknowledged | LostRetriable | LostFatal(e: Value)

  /** The body's effects and its output row commit together. A lost acknowledgement sends the
      invocation round the loop again when the driver's error is retriable, and to the error
      path when it is not. */
  predicate Commit(s: State, s': State, p: nat, v: Value, ack: CommitAck) {
    && p in s.calls && s.calls[p].pc.InBody? && s.calls[p].key !in s.txs
    && var c := s.calls[p];
       var row := TxRow(c.name, Some(v), None);
       s' == At(s, p, match ack
                      case Acknowledged => Recorded(row)
                      case LostRetriable => Looping
                      case LostFatal(e) => Failed(e))
             .(txs := s.txs[c.key := row], effects := s.effects[c.key := Effects(s, c.key) + 1])
  }

  /** Nothing commits: another invocation's row is in the way, the body raised, or the
      database refused the transaction. Refusals that can be retried go round the loop. */
  predicate RollBack(s: State, s': State, p: nat, e: Option<Value>) {
    && p in s.calls && s.calls[p].pc.InBody?
    && s' == At(s, p, if e.Some? then Failed(e.value) else Looping)
  }

  /** The error row goes in by a transaction of its own; the primary key refuses it when
      the output, or another error, is already there. */
  predicate RecordError(s: State, s': State, p: nat, acked: bool) {
    && p in s.calls && s.calls[p].pc.Failed?
    && var c := s.calls[p];
       var row := TxRow(c.name, None, Some(c.pc.e));
       s' == if c.key in s.txs then At(s, p, Aborted)
             else At(s, p, if acked then Recorded(row) else Aborted).(txs := s.txs[c.key := row])
  }

  predicate RecordInSystem(s: State, s': State, p: nat, executor: Option<string>, acked: bool) {
    && p in s.calls && s.calls[p].pc.Recorded? && s.calls[p].key.0 in s.db.status
    && var c := s.calls[p];
       s' == (if acked then At(s, p, Finished(ResultOf(c.pc.row.output, c.pc.row.error))) else s)
             .(db := RecordOperation(s.db, c.key.0, c.key.1, ToRecord(c.pc.row), executor))
  }

  /** Cancels, resumes and the like. */
  predicate StatusChange(s: State, s': State) {
    s.db.status.Keys <= s'.db.status.Keys && s' == s.(db := s.db.(status := s'.db.status))
  }

  datatype Move =
    | InvokeM(key: Key, name: string)
    | CrashM
    | SystemCheckM
    | AppCheckM
    | CommitM(v: Value, ack: CommitAck)
    | RollBackM(cause: Option<Value>)
    | RecordErrorM(acked: bool)
    | RecordInSystemM(executor: Option<string>, acknowledged: bool)
    | StatusM

  predicate Step(s: State, s': State, p: nat, m: Move) {
    match m
    case InvokeM(k, name) => Invoke(s, s', p, k, name)
    case CrashM => Crash(s, s', p)
    case SystemCheckM => SystemCheck(s, s', p)
    case AppCheckM => AppCheck(s, s', p)
    case CommitM(v, ack) => Commit(s, s', p, v, ack)
    case RollBackM(e) => RollBack(s, s', p, e)
    case RecordErrorM(acked) => RecordError(s, s', p, acked)
    case RecordInSystemM(x, acked) => RecordInSystem(s, s', p, x, acked)
    case StatusM => StatusChange(s, s')
  }

  predicate Initial(s: State) {
    s.txs == map[] && s.calls == map[] && s.effects == map[] && s.copied == s.db.ops
  }

  ghost predicate Next(s: State, s': State) {
    exists p, m :: Step(s, s', p, m)
  }

  ghost predicate StepAt(run: seq<State>, i: nat)
    requires i + 1 < |run|
  {
    Next(run[i], run[i + 1])
  }

  ghost predicate Run(run: seq<State>) {
    && |run| > 0 && Initial(run[0])
    && forall i :: 0 <= i < |run| - 1 ==> StepAt(run, i)
  }

  // ----- invariant -----

  /** An application row holds an output or an error, never both; the body committed once for
      an output and never for an error. A system record agrees with the application row. */
  ghost predicate KeyInv(s: State, k: Key) {
    && Effects(s, k) == (if k in s.txs && s.txs[k].output.Some? then 1 else 0)
    && (k in s.txs ==> s.txs[k].output.Some? != s.txs[k].error.Some?)
    && (k in s.copied ==> k in s.db.ops && s.db.ops[k] == s.copied[k] && k !in s.txs)
    && (k in s.db.ops && k !in s.copied ==> k in s.txs && SameRecord(s.db.ops[k], s.txs[k]))
  }

  /** The system record has the name, output and error of the application row. */
  ghost predicate SameRecord(rec: OpRecord, row: TxRow) {
    rec.name == row.name && rec.output == row.output && rec.error == row.error && rec.child.None?
  }

  /** The record tells this result: an output, an error, or neither, which raises. */
  ghost predicate Tells(rec: OpRecord, res: TxResult) {
    match res
    case Returned(v) => rec.output == Some(v) && rec.error == None
    case Raised(e) => rec.error == Some(e) || (rec.error == None && rec.output == None && e == NO_RESULT)
  }

  /** What the databases hold for a key, as a result. */
  ghost predicate Holds(s: State, k: Key, res: TxResult) {
    if k in s.copied then res == ResultOf(s.copied[k].output, s.copied[k].error)
    else k in s.txs && res == ResultOf(s.txs[k].output, s.txs[k].error)
  }

  /** The system database has the result of a finished invocation, under the name it was invoked by. */
  ghost predicate InSystem(s: State, c: Invocation)
    requires c.pc.Finished?
  {
    c.key in s.db.ops && s.db.ops[c.key].name == c.name && Tells(s.db.ops[c.key], c.pc.res)
  }

  ghost predicate CallInv(s: State, p: nat)
    requires p in s.calls
  {
    var c := s.calls[p];
    && (c.pc.Looping? || c.pc.InBody? || c.pc.Failed? || c.pc.Recorded? ==> c.key !in s.copied)
    && (c.pc.Recorded? ==> c.key in s.txs && s.txs[c.key] == c.pc.row && c.pc.row.name == c.name)
    && (c.pc.Finished? ==> Holds(s, c.key, c.pc.res) && InSystem(s, c))
  }

  ghost predicate Inv(s: State) {
    && (forall k :: KeyInv(s, k))
    && forall p :: p in s.calls ==> CallInv(s, p)
  }

  /** The moving invocation, if there is one, satisfies the invariant. */
  ghost predicate MoverOk(s: State, p: nat) {
    p in s.calls ==> CallInv(s, p) && KeyInv(s, s.calls[p].key)
  }

  predicate WritesRows(m: Move) {
    m.CommitM? || m.RecordErrorM? || m.RecordInSystemM?
  }

  lemma QuietStepWritesNothing(s: State, s': State, p: nat, m: Move)
    requires Step(s, s', p, m) && !WritesRows(m)
    ensures s'.txs == s.txs && s'.db.ops == s.db.ops && s'.effects == s.effects && s'.copied == s.copied
  {
  }

  lemma QuietStepKeepsKeys(s: State, s': State, p: nat, m: Move, k: Key)
    requires KeyInv(s, k) && Step(s, s', p, m) && !WritesRows(m)
    ensures KeyInv(s', k)
  {
    QuietStepWritesNothing(s, s', p, m);
  }

  lemma WritingStepKeepsKeys(s: State, s': State, p: nat, m: Move, k: Key)
    requires KeyInv(s, k) && MoverOk(s, p) && Step(s, s', p, m) && WritesRows(m)
    ensures KeyInv(s', k)
  {
    match m
    case CommitM(v, ack) =>
    case RecordErrorM(acked) =>
    case RecordInSystemM(x, acked) =>
  }

  /** Rows are never replaced, in either database. */
  lemma StepKeepsRows(s: State, s': State, p: nat, m: Move)
    requires Step(s, s', p, m)
    ensures s'.copied == s.copied
    ensures forall k :: k in s.txs ==> k in s'.txs && s'.txs[k] == s.txs[k]
    ensures forall k :: k in s.db.ops ==> k in s'.db.ops && s'.db.ops[k] == s.db.ops[k]
  {
  }

  lemma OtherCallsKept(s: State, s': State, p: nat, m: Move, q: nat)
    requires Step(s, s', p, m) && q in s'.calls && (m.StatusM? || q != p)
    requires q in s.calls ==> CallInv(s, q)
    ensures CallInv(s', q)
  {
    StepKeepsRows(s, s', p, m);
    CallOfOther(s, s', p, m, q);
  }

  lemma CallOfOther(s: State, s': State, p: nat, m: Move, q: nat)
    requires Step(s, s', p, m) && q in s'.calls && (m.StatusM? || q != p)
    ensures q in s.calls && s'.calls[q] == s.calls[q]
  {
  }

  lemma SystemCheckKeepsCall(s: State, s': State, p: nat)
    requires MoverOk(s, p) && SystemCheck(s, s', p)
    ensures CallInv(s', p)
  {
  }

  lemma AppCheckKeepsCall(s: State, s': State, p: nat)
    requires MoverOk(s, p) && AppCheck(s, s', p)
    ensures CallInv(s', p)
  {
  }

  lemma CheckKeepsCall(s: State, s': State, p: nat, m: Move)
    requires MoverOk(s, p) && Step(s, s', p, m) && p in s'.calls
    requires m.InvokeM? || m.CrashM? || m.SystemCheckM? || m.AppCheckM?
    ensures CallInv(s', p)
  {
    match m
    case SystemCheckM => SystemCheckKeepsCall(s, s', p);
    case AppCheckM => AppCheckKeepsCall(s, s', p);
    case _ =>
  }

  lemma WriteKeepsCall(s: State, s': State, p: nat, m: Move)
    requires MoverOk(s, p) && Step(s, s', p, m) && p in s'.calls
    requires m.CommitM? || m.RollBackM? || m.RecordErrorM? || m.RecordInSystemM?
    ensures CallInv(s', p)
  {
  }

  lemma StepKeepsInv(s: State, s': State, p: nat, m: Move)
    requires Inv(s) && Step(s, s', p, m)
    ensures Inv(s')
  {
    assert MoverOk(s, p);
    forall k
      ensures KeyInv(s', k)
    {
      if WritesRows(m) {
        WritingStepKeepsKeys(s, s', p, m, k);
      } else {
        QuietStepKeepsKeys(s, s', p, m, k);
      }
    }
    forall q | q in s'.calls
      ensures CallInv(s', q)
    {
      if m.StatusM? || q != p {
        OtherCallsKept(s, s', p, m, q);
      } else if m.InvokeM? || m.CrashM? || m.SystemCheckM? || m.AppCheckM? {
        CheckKeepsCall(s, s', p, m);
      } else {
        WriteKeepsCall(s, s', p, m);
      }
    }
  }

  lemma {:induction false} RunKeepsInv(run: seq<State>, i: nat)
    requires Run(run) && i < |run|
    ensures Inv(run[i])
  {
    if i > 0 {
      RunKeepsInv(run, i - 1);
      assert StepAt(run, i - 1);
      var p, m :| Step(run[i - 1], run[i], p, m);
      StepKeepsInv(run[i - 1], run[i], p, m);
    }
  }

  lemma {:induction false} RunKeepsRows(run: seq<State>, i: nat, j: nat)
    requires Run(run) && i <= j < |run|
    ensures run[j].copied == run[i].copied
    ensures forall k :: k in run[i].txs ==> k in run[j].txs && run[j].txs[k] == run[i].txs[k]
    ensures forall k :: k in run[i].db.ops ==> k in run[j].db.ops && run[j].db.ops[k] == run[i].db.ops[k]
  {
    if i < j {
      RunKeepsRows(run, i, j - 1);
      assert StepAt(run, j - 1);
      var p, m :| Step(run[j - 1], run[j], p, m);
      StepKeepsRows(run[j - 1], run[j], p, m);
    }
  }

  // ----- main results -----

  /** In every reachable state, for every (workflow, function id): the body has committed at
      most once, exactly when its output row is there, and never beside an error row; and the
      system database says what the application database says. */
  lemma BodyCommitsOnce(run: seq<State>, i: nat, k: Key)
    requires Run(run) && i < |run|
    ensures var s := run[i];
            && Effects(s, k) <= 1
            && (Effects(s, k) == 1 <==> k in s.txs && s.txs[k].output.Some?)
            && (k in s.txs && s.txs[k].error.Some? ==> Effects(s, k) == 0)
            && (k in s.db.ops && k !in run[0].db.ops ==> k in s.txs && SameRecord(s.db.ops[k], s.txs[k]))
  {
    RunKeepsInv(run, i);
    RunKeepsRows(run, 0, i);
    assert KeyInv(run[i], k);
  }

  /** However many invocations of one (workflow, function id) there are, and whenever they
      finish, all that finish have the same result. */
  lemma FinishedAgree(run: seq<State>, i: nat, j: nat, p: nat, q: nat)
    requires Run(run) && i <= j < |run|
    requires p in run[i].calls && q in run[j].calls && run[i].calls[p].key == run[j].calls[q].key
    requires run[i].calls[p].pc.Finished? && run[j].calls[q].pc.Finished?
    ensures run[i].calls[p].pc.res == run[j].calls[q].pc.res
  {
    RunKeepsInv(run, i);
    RunKeepsInv(run, j);
    RunKeepsRows(run, i, j);
    assert CallInv(run[i], p) && CallInv(run[j], q);
  }

  /** Replay. Once an invocation has finished with `res`, the system database tells `res` under its
      name; and whoever invokes the same function id under that name, then or at any later time, is
      handed `res` by the first check, unless the workflow is cancelled. */
  lemma FinishedIsReplayed(run: seq<State>, i: nat, j: nat, p: nat, q: nat, s': State)
    requires Run(run) && i <= j < |run| && p in run[i].calls && run[i].calls[p].pc.Finished?
    requires q in run[j].calls && run[j].calls[q].pc.Entered? && SystemCheck(run[j], s', q)
    requires run[j].calls[q].key == run[i].calls[p].key && run[j].calls[q].name == run[i].calls[p].name
    requires run[j].calls[q].key.0 in run[j].db.status && !run[j].db.status[run[j].calls[q].key.0].status.Cancelled?
    ensures var c := run[i].calls[p];
            && c.key in run[j].db.ops && run[j].db.ops[c.key].name == c.name && Tells(run[j].db.ops[c.key], c.pc.res)
            && s'.calls[q].pc == Finished(c.pc.res)
  {
    RunKeepsInv(run, i);
    RunKeepsRows(run, i, j);
    RunKeepsInv(run, j);
    assert CallInv(run[i], p) && KeyInv(run[i], run[i].calls[p].key) && KeyInv(run[j], run[i].calls[p].key);
  }

  /** What an acknowledged commit leads to: the invocation's next transition, the record in the system
      database, finishes it with what its body returned. */
  lemma CommittedIsReturned(s: State, t: State, u: State, p: nat, v: Value, executor: Option<string>)
    requires Commit(s, t, p, v, Acknowledged) && RecordInSystem(t, u, p, executor, true)
    ensures u.calls[p].pc == Finished(Returned(v))
    ensures u.txs[u.calls[p].key].output == Some(v) && u.txs[u.calls[p].key].name == s.calls[p].name
  {
  }
}
