/** Invoking a step or a transaction from a workflow: look for the checkpoint, otherwise run the
    body, with retries, and record its result. */
module Invocations {
  import opened SystemTables
  import opened OperationLog
  import opened Transactions
  import opened AppDatabase
  import SystemDatabase

  // ----- steps -----

  /** What each attempt at the body does; `exceeded` makes the error raised after the last. */
  type Body = nat -> TxResult

  predicate Fails(body: Body, i: nat) {
    body(i).Raised?
  }

  /** Errors of the first `n` attempts. */
  function Errors(body: Body, n: nat): seq<Value>
    requires forall i :: 0 <= i < n ==> Fails(body, i)
  {
    seq(n, i requires 0 <= i < n && Fails(body, i) => body(i).e)
  }

  /** Runs the body until it returns, at most `attempts` times. */
  method Retry(body: Body, attempts: nat, exceeded: (nat, seq<Value>) -> Value) returns (res: TxResult, runs: nat)
    requires attempts > 0
    ensures 1 <= runs <= attempts && forall i :: 0 <= i < runs - 1 ==> Fails(body, i)
    ensures res.Returned? ==> res == body(runs - 1)
    ensures res.Raised? ==>
              runs == attempts && Fails(body, runs - 1)
              && res.e == exceeded(attempts, Errors(body, attempts))
  {
    var errors := [];
    for i := 0 to attempts
      invariant forall j :: 0 <= j < i ==> Fails(body, j)
      invariant errors == Errors(body, i)
    {
      match body(i)
      case Returned(v) => return Returned(v), i + 1;
      case Raised(e) => errors := errors + [e];
    }
    res, runs := Raised(exceeded(attempts, errors)), attempts;
  }

  function StepRecord(name: string, res: TxResult): OpRecord {
    match res
    case Returned(v) => OpRecord(name, Some(v), None, None)
    case Raised(e) => OpRecord(name, None, Some(e), None)
  }

  /** `invoke_step`. A checkpointed body does not run; otherwise it runs, and what the caller is
      told is what was recorded. */
  method InvokeStep(sys: SystemDatabase.SystemDatabase, k: Key, name: string, body: Body,
                    retriesAllowed: bool, maxAttempts: nat, exceeded: (nat, seq<Value>) -> Value)
    returns (r: Result<TxResult, LogError>, runs: nat)
    requires retriesAllowed ==> maxAttempts > 0
    modifies sys
    ensures match CheckOperation(old(sys.Tables()), k.0, k.1, name)
            case Err(e) => r == Err(e) && runs == 0 && sys.Tables() == old(sys.Tables())
            case Ok(Some(rec)) =>
              r == Ok(ResultOf(rec.output, rec.error)) && runs == 0 && sys.Tables() == old(sys.Tables())
            case Ok(None) =>
              && r.Ok? && 1 <= runs <= (if retriesAllowed then maxAttempts else 1)
              && (r.value.Returned? ==> r.value == body(runs - 1))
              && (!retriesAllowed ==> r.value == body(0))
              && (retriesAllowed && r.value.Raised? ==>
                    && runs == maxAttempts && (forall i :: 0 <= i < maxAttempts ==> Fails(body, i))
                    && r.value.e == exceeded(maxAttempts, Errors(body, maxAttempts)))
              && k.0 in old(sys.status)
              && sys.Tables() == RecordOperation(old(sys.Tables()), k.0, k.1, StepRecord(name, r.value), sys.executorId)
  {
    var found := sys.CheckOperationExecution(k.0, k.1, name);
    match found {
      case Err(e) => return Err(e), 0;
      case Ok(Some(rec)) => return Ok(ResultOf(rec.output, rec.error)), 0;
      case Ok(None) =>
    }
    var res;
    if retriesAllowed {
      res, runs := Retry(body, maxAttempts, exceeded);
    } else {
      res, runs := body(0), 1;
    }
    sys.RecordOperationResult(k.0, k.1, StepRecord(name, res));
    r := Ok(res);
  }

  /** Invoking a recorded step again, in this execution or a later one, hands back the recorded
      result as long as the workflow is not cancelled. */
  lemma RecordedStepIsReplayed(db: Db, k: Key, name: string, res: TxResult, executor: Option<string>)
    requires CheckOperation(db, k.0, k.1, name) == Ok(None)
    ensures k.0 in db.status
    ensures var again := CheckOperation(RecordOperation(db, k.0, k.1, StepRecord(name, res), executor), k.0, k.1, name);
            again.Ok? && again.value.Some? && ResultOf(again.value.value.output, again.value.value.error) == res
  {
  }

  // ----- transactions -----

  /** What one round of the transaction loop meets when no record is found. */
  datatype Round =
    | BodyReturns(v: Value, ack: CommitAck)
    | BodyRaises(e: Value)
    | Refused                       // a serialization failure or the like, before the commit

  /** The body returns, and the commit is acknowledged. */
  predicate Succeeds(round: Round) {
    round.BodyReturns? && round.ack.Acknowledged?
  }

  /** The two databases and this one invocation, as a state of the protocol. */
  ghost function Protocol(sys: SystemDatabase.SystemDatabase, app: AppDatabase, k: Key, name: string, pc: Pc,
                          copied: OpTable): State
    reads sys, app
  {
    State(sys.Tables(), app.txs, map[0 := Invocation(k, name, pc)], app.effects, copied)
  }

  ghost predicate IsPath(path: seq<State>) {
    forall i :: 0 <= i < |path| - 1 ==> Next(path[i], path[i + 1])
  }

  ghost predicate Connects(path: seq<State>, s: State, s': State) {
    |path| > 0 && IsPath(path) && path[0] == s && path[|path| - 1] == s'
  }

  /** By any number of transitions of the protocol. */
  ghost predicate Reaches(s: State, s': State) {
    exists path :: Connects(path, s, s')
  }

  lemma Stays(s: State)
    ensures Reaches(s, s)
  {
    assert Connects([s], s, s);
  }

  lemma ReachesNext(s: State, t: State, s': State)
    requires Reaches(s, t) && Next(t, s')
    ensures Reaches(s, s')
  {
    var path :| Connects(path, s, t);
    assert Connects(path + [s'], s, s');
  }

  lemma {:induction false} Onward(path: seq<State>, i: nat, s: State)
    requires IsPath(path) && i < |path| && Reaches(s, path[0])
    ensures Reaches(s, path[i])
  {
    if i > 0 {
      Onward(path, i - 1, s);
      assert Next(path[i - 1], path[i]);
      ReachesNext(s, path[i - 1], path[i]);
    }
  }

  lemma ReachesTrans(s: State, t: State, s': State)
    requires Reaches(s, t) && Reaches(t, s')
    ensures Reaches(s, s')
  {
    var path :| Connects(path, t, s');
    Onward(path, |path| - 1, s);
  }

  /** A transition this invocation makes. */
  lemma MoveReaches(s: State, s': State, m: Move)
    requires Step(s, s', 0, m)
    ensures Reaches(s, s')
  {
    Stays(s);
    ReachesNext(s, s, s');
  }

  /** The protocol's invariant holds at the end of a path if it held at the start. */
  lemma {:induction false} PathKeepsInv(path: seq<State>, i: nat)
    requires IsPath(path) && i < |path| && Inv(path[0])
    ensures Inv(path[i])
  {
    if i > 0 {
      PathKeepsInv(path, i - 1);
      assert Next(path[i - 1], path[i]);
      var p, m :| Step(path[i - 1], path[i], p, m);
      StepKeepsInv(path[i - 1], path[i], p, m);
    }
  }

  /** The row a round found or committed goes to the system database as well. */
  method RecordInSystem(sys: SystemDatabase.SystemDatabase, app: AppDatabase, k: Key, name: string, row: TxRow,
                        ghost copied: OpTable)
    returns (res: TxResult)
    requires k.0 in sys.status
    modifies sys
    ensures res == ResultOf(row.output, row.error)
    ensures Reaches(old(Protocol(sys, app, k, name, Recorded(row), copied)),
                    Protocol(sys, app, k, name, Finished(res), copied))
  {
    ghost var s := Protocol(sys, app, k, name, Recorded(row), copied);
    sys.RecordOperationResult(k.0, k.1, ToRecord(row));
    res := ResultOf(row.output, row.error);
    MoveReaches(s, Protocol(sys, app, k, name, Finished(res), copied), RecordInSystemM(sys.executorId, true));
  }

  ghost function Outcome(r: Option<TxResult>): Pc {
    if r.Some? then Finished(r.value) else Aborted
  }

  function AfterError(name: string, e: Value, recorded: bool): Pc {
    if recorded then Recorded(TxRow(name, None, Some(e))) else Aborted
  }

  /** An error row goes in unless there is a record already. */
  method RecordErrorRow(sys: SystemDatabase.SystemDatabase, app: AppDatabase, k: Key, name: string, e: Value, now: int,
                        ghost copied: OpTable)
    returns (recorded: bool)
    requires app.Valid()
    modifies app
    ensures app.Valid()
    ensures Reaches(old(Protocol(sys, app, k, name, Failed(e), copied)),
                    Protocol(sys, app, k, name, AfterError(name, e, recorded), copied))
  {
    ghost var s := Protocol(sys, app, k, name, Failed(e), copied);
    var r := app.RecordTransactionError(k, name, e, now);
    recorded := r.Ok?;
    MoveReaches(s, Protocol(sys, app, k, name, AfterError(name, e, recorded), copied), RecordErrorM(true));
  }

  /** The body raised, or its commit could not be confirmed: the error is recorded in both databases,
      unless there is a record already. */
  method RecordError(sys: SystemDatabase.SystemDatabase, app: AppDatabase, k: Key, name: string, e: Value, now: int,
                     ghost copied: OpTable)
    returns (r: Option<TxResult>)
    requires app.Valid() && k.0 in sys.status
    modifies sys, app
    ensures app.Valid()
    ensures Reaches(old(Protocol(sys, app, k, name, Failed(e), copied)),
                    Protocol(sys, app, k, name, Outcome(r), copied))
  {
    ghost var s := Protocol(sys, app, k, name, Failed(e), copied);
    var recorded := RecordErrorRow(sys, app, k, name, e, now, copied);
    if !recorded {
      return None;
    }
    var row := TxRow(name, None, Some(e));
    ghost var t := Protocol(sys, app, k, name, Recorded(row), copied);
    var res := RecordInSystem(sys, app, k, name, row, copied);
    ReachesTrans(s, t, Protocol(sys, app, k, name, Finished(res), copied));
    r := Some(res);
  }

  /** Where a commit leaves the invocation, by what it hears of it. */
  function AfterCommit(name: string, v: Value, ack: CommitAck): Pc {
    match ack
    case Acknowledged => Recorded(TxRow(name, Some(v), None))
    case LostRetriable => Looping
    case LostFatal(e) => Failed(e)
  }

  lemma CommitReaches(s: State, k: Key, name: string, v: Value, ack: CommitAck)
    requires s.calls == map[0 := Invocation(k, name, InBody)] && k !in s.txs
    ensures Reaches(s, s.(calls := map[0 := Invocation(k, name, AfterCommit(name, v, ack))],
                          txs := s.txs[k := TxRow(name, Some(v), None)],
                          effects := s.effects[k := Effects(s, k) + 1]))
  {
    var s' := s.(calls := map[0 := Invocation(k, name, AfterCommit(name, v, ack))],
                 txs := s.txs[k := TxRow(name, Some(v), None)], effects := s.effects[k := Effects(s, k) + 1]);
    assert Commit(s, s', 0, v, ack);
    MoveReaches(s, s', CommitM(v, ack));
  }

  method CommitBody(sys: SystemDatabase.SystemDatabase, app: AppDatabase, k: Key, name: string, v: Value,
                    ack: CommitAck, now: int, ghost copied: OpTable)
    requires app.Valid() && k !in app.txs
    modifies app
    ensures app.Valid()
    ensures Reaches(old(Protocol(sys, app, k, name, InBody, copied)),
                    Protocol(sys, app, k, name, AfterCommit(name, v, ack), copied))
  {
    ghost var s := Protocol(sys, app, k, name, InBody, copied);
    CommitReaches(s, k, name, v, ack);
    var committed := app.RecordTransactionOutput(k, name, v, now);
  }

  /** What follows the commit. */
  method FinishCommit(sys: SystemDatabase.SystemDatabase, app: AppDatabase, k: Key, name: string, v: Value,
                      ack: CommitAck, now: int, ghost copied: OpTable)
    returns (again: bool, r: Option<TxResult>)
    requires app.Valid() && k.0 in sys.status
    modifies sys, app
    ensures app.Valid() && (again ==> k.0 in sys.status)
    ensures ack.Acknowledged? ==> !again && r == Some(Returned(v))
    ensures Reaches(old(Protocol(sys, app, k, name, AfterCommit(name, v, ack), copied)),
                    Protocol(sys, app, k, name, if again then Looping else Outcome(r), copied))
  {
    match ack {
      case Acknowledged =>
        var res := RecordInSystem(sys, app, k, name, TxRow(name, Some(v), None), copied);
        again, r := false, Some(res);
      case LostRetriable =>
        Stays(Protocol(sys, app, k, name, Looping, copied));
        again, r := true, None;
      case LostFatal(e) =>
        r := RecordError(sys, app, k, name, e, now, copied);
        again := false;
    }
  }

  /** The transaction itself, when it finds no record. */
  method RunBody(sys: SystemDatabase.SystemDatabase, app: AppDatabase, k: Key, name: string, round: Round, now: int,
                 ghost copied: OpTable)
    returns (again: bool, r: Option<TxResult>)
    requires app.Valid() && k.0 in sys.status && k !in app.txs
    modifies sys, app
    ensures app.Valid() && (again ==> k.0 in sys.status)
    ensures Succeeds(round) ==> !again && r == Some(Returned(round.v))
    ensures Reaches(old(Protocol(sys, app, k, name, InBody, copied)),
                    Protocol(sys, app, k, name, if again then Looping else Outcome(r), copied))
  {
    ghost var s, t := Protocol(sys, app, k, name, InBody, copied), Protocol(sys, app, k, name, Looping, copied);
    match round {
      case Refused =>
        MoveReaches(s, t, RollBackM(None));
        again, r := true, None;
      case BodyRaises(e) =>
        t := Protocol(sys, app, k, name, Failed(e), copied);
        MoveReaches(s, t, RollBackM(Some(e)));
        r := RecordError(sys, app, k, name, e, now, copied);
        again := false;
        ReachesTrans(s, t, Protocol(sys, app, k, name, Outcome(r), copied));
      case BodyReturns(v, ack) =>
        CommitBody(sys, app, k, name, v, ack, now, copied);
        t := Protocol(sys, app, k, name, AfterCommit(name, v, ack), copied);
        again, r := FinishCommit(sys, app, k, name, v, ack, now, copied);
        ReachesTrans(s, t, Protocol(sys, app, k, name, if again then Looping else Outcome(r), copied));
    }
  }

  method OneRound(sys: SystemDatabase.SystemDatabase, app: AppDatabase, k: Key, name: string, round: Round,
                  now: int, ghost copied: OpTable)
    returns (again: bool, r: Option<TxResult>)
    requires app.Valid() && k.0 in sys.status
    modifies sys, app
    ensures app.Valid() && (again ==> k.0 in sys.status)
    ensures k !in old(app.txs) && Succeeds(round) ==> !again && r == Some(Returned(round.v))
    ensures Reaches(old(Protocol(sys, app, k, name, Looping, copied)),
                    Protocol(sys, app, k, name, if again then Looping else Outcome(r), copied))
  {
    ghost var s := Protocol(sys, app, k, name, Looping, copied);
    var recorded := app.CheckTransactionExecution(k, name);
    ghost var t := Protocol(sys, app, k, name,
      match recorded case Err(_) => Aborted case Ok(None) => InBody case Ok(Some(row)) => Recorded(row), copied);
    MoveReaches(s, t, AppCheckM);
    match recorded {
      case Err(_) =>
        again, r := false, None;
      case Ok(Some(row)) =>
        var res := RecordInSystem(sys, app, k, name, row, copied);
        again, r := false, Some(res);
        ReachesTrans(s, t, Protocol(sys, app, k, name, Finished(res), copied));
      case Ok(None) =>
        again, r := RunBody(sys, app, k, name, round, now, copied);
        ReachesTrans(s, t, Protocol(sys, app, k, name, if again then Looping else Outcome(r), copied));
    }
  }

  /** The loop: `live` tells that it was still going round when the rounds ended. */
  method Rounds(sys: SystemDatabase.SystemDatabase, app: AppDatabase, k: Key, name: string, rounds: seq<Round>,
                now: int, ghost copied: OpTable)
    returns (live: bool, r: Option<TxResult>)
    requires app.Valid() && k.0 in sys.status
    modifies sys, app
    ensures app.Valid()
    ensures k !in old(app.txs) && rounds != [] && Succeeds(rounds[0]) ==> !live && r == Some(Returned(rounds[0].v))
    ensures Reaches(old(Protocol(sys, app, k, name, Looping, copied)),
                    Protocol(sys, app, k, name, if live then Looping else Outcome(r), copied))
  {
    ghost var s := Protocol(sys, app, k, name, Looping, copied);
    Stays(s);
    live, r := true, None;
    var n := 0;
    while live && n < |rounds|
      invariant app.Valid() && (live ==> k.0 in sys.status)
      invariant 0 <= n <= |rounds|
      invariant n == 0 ==> live && app.txs == old(app.txs)
      invariant n > 0 && k !in old(app.txs) && Succeeds(rounds[0]) ==> !live && r == Some(Returned(rounds[0].v))
      invariant Reaches(s, Protocol(sys, app, k, name, if live then Looping else Outcome(r), copied))
      decreases |rounds| - n
    {
      ghost var t := Protocol(sys, app, k, name, Looping, copied);
      live, r := OneRound(sys, app, k, name, rounds[n], now, copied);
      ReachesTrans(s, t, Protocol(sys, app, k, name, if live then Looping else Outcome(r), copied));
      n := n + 1;
    }
  }

  /** Where the system database's record, or its absence, leaves the invocation. */
  function AfterCheck(found: Result<Option<OpRecord>, LogError>): Pc {
    match found
    case Err(_) => Aborted
    case Ok(None) => Looping
    case Ok(Some(rec)) => Finished(ResultOf(rec.output, rec.error))
  }

  lemma CheckReaches(s: State, k: Key, name: string)
    requires s.calls == map[0 := Invocation(k, name, Entered)]
    ensures Reaches(s, s.(calls := map[0 := Invocation(k, name, AfterCheck(CheckOperation(s.db, k.0, k.1, name)))]))
  {
    var s' := s.(calls := map[0 := Invocation(k, name, AfterCheck(CheckOperation(s.db, k.0, k.1, name)))]);
    assert SystemCheck(s, s', 0);
    MoveReaches(s, s', SystemCheckM);
  }

  predicate Live(st: StatusTable, wf: Id) {
    wf in st && !st[wf].status.Cancelled?
  }

  /** `invoke_tx`, with the rounds its environment imposes. A result that is recorded is handed back
      and nothing changes; a body that returns and is committed at once has its result handed
      back. Its run is a run of the transaction protocol, so what holds of the protocol holds of it:
      when the databases agreed before, a result is in the system database afterwards. */
  method InvokeTx(sys: SystemDatabase.SystemDatabase, app: AppDatabase, k: Key, name: string, rounds: seq<Round>,
                  now: int, ghost copied: OpTable)
    returns (live: bool, r: Option<TxResult>)
    requires app.Valid()
    modifies sys, app
    ensures app.Valid()
    ensures Live(old(sys.status), k.0) && k in old(sys.ops) && old(sys.ops)[k].name == name ==>
              && !live && r.Some? && Tells(old(sys.ops)[k], r.value)
              && sys.Tables() == old(sys.Tables()) && app.txs == old(app.txs)
    ensures Live(old(sys.status), k.0) && k !in old(sys.ops) && k !in old(app.txs) ==>
            rounds != [] && Succeeds(rounds[0]) ==>
              !live && r == Some(Returned(rounds[0].v))
    ensures Reaches(old(Protocol(sys, app, k, name, Entered, copied)),
                    Protocol(sys, app, k, name, if live then Looping else Outcome(r), copied))
    ensures old(Inv(Protocol(sys, app, k, name, Entered, copied))) && !live && r.Some? ==>
              k in sys.ops && sys.ops[k].name == name && Tells(sys.ops[k], r.value)
  {
    ghost var s := Protocol(sys, app, k, name, Entered, copied);
    var found := sys.CheckOperationExecution(k.0, k.1, name);
    ghost var t := Protocol(sys, app, k, name, AfterCheck(found), copied);
    CheckReaches(s, k, name);
    match found {
      case Err(_) => return false, None;
      case Ok(Some(rec)) => return false, Some(ResultOf(rec.output, rec.error));
      case Ok(None) =>
    }
    live, r := Rounds(sys, app, k, name, rounds, now, copied);
    ghost var u := Protocol(sys, app, k, name, if live then Looping else Outcome(r), copied);
    ReachesTrans(s, t, u);
    if Inv(s) && !live && r.Some? {
      FinishedIsInSystem(s, u);
    }
  }

  /** An invocation that has finished has its result in the system database. */
  lemma FinishedIsInSystem(first: State, last: State)
    requires Inv(first) && Reaches(first, last) && 0 in last.calls && last.calls[0].pc.Finished?
    ensures InSystem(last, last.calls[0])
  {
    var path :| Connects(path, first, last);
    PathKeepsInv(path, |path| - 1);
    assert CallInv(last, 0);
  }

  /** The replay law, on two calls. When the databases agreed and the first call returned a result,
      the second returns the same and changes nothing, unless the workflow is cancelled in between:
      `between` is the status table as the second call finds it. */
  method InvokeTxTwice(sys: SystemDatabase.SystemDatabase, app: AppDatabase, k: Key, name: string, rounds: seq<Round>,
                       again: seq<Round>, now: int, ghost copied: OpTable)
    returns (r: Option<TxResult>, r': Option<TxResult>, ghost between: StatusTable)
    requires app.Valid() && Inv(Protocol(sys, app, k, name, Entered, copied))
    modifies sys, app
    ensures r.Some? && Live(between, k.0) ==> r' == r
  {
    var live, live';
    live, r := InvokeTx(sys, app, k, name, rounds, now, copied);
    if live {
      r := None;
    }
    between := sys.status;
    live', r' := InvokeTx(sys, app, k, name, again, now, copied);
  }

  /** The body of one invocation commits at most once, however its rounds go, when the
      databases agreed to begin with. */
  lemma InvocationCommitsOnce(first: State, last: State, k: Key)
    requires Inv(first) && Reaches(first, last)
    ensures Inv(last)
    ensures Effects(first, k) <= Effects(last, k) <= 1
    ensures Effects(first, k) < Effects(last, k) ==> k !in first.txs && k in last.txs && last.txs[k].output.Some?
  {
    var path :| Connects(path, first, last);
    PathKeepsInv(path, |path| - 1);
    PathKeepsRows(path, |path| - 1);
    assert KeyInv(first, k) && KeyInv(last, k);
  }

  ghost predicate RowsKept(s: State, s': State) {
    forall k :: k in s.txs ==> k in s'.txs && s'.txs[k] == s.txs[k]
  }

  lemma NextKeepsRows(s: State, s': State)
    requires Next(s, s')
    ensures RowsKept(s, s')
  {
    var p, m :| Step(s, s', p, m);
    StepKeepsRows(s, s', p, m);
  }

  lemma {:induction false} PathKeepsRows(path: seq<State>, i: nat)
    requires IsPath(path) && i < |path|
    ensures RowsKept(path[0], path[i])
  {
    if i > 0 {
      PathKeepsRows(path, i - 1);
      NextKeepsRows(path[i - 1], path[i]);
    }
  }
}
