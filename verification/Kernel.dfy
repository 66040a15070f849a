/** The checkpoint-and-replay kernel as a state machine.

    Any number of workflows run, crash and recover over one system database. A workflow is
    deterministic code: what it does next is a function of the results it has seen. One
    transition is one database transaction, one move of the volatile execution context, or a
    crash, so a run may stop between any two of them. At most one execution of a workflow is
    live at a time. */
module Kernel {
  import opened SystemTables
  import opened OperationLog
  import opened WorkflowRows

  // ----- workflow code -----

  /** What one operation hands back to the workflow. */
  datatype Res = Unit | Returned(v: Value) | Raised(e: Value) | NoMessage

  datatype Action =
    | RunStep(name: string)
    | Send(dest: Id, topic: string, body: Value)
    | Recv(topic: string)
    | SetEvent(key: string, value: Value)
    | WriteStream(key: string, value: Value)
    | Finish(outcome: Outcome)

  type Code = (Id, seq<Res>) -> Action

  function OpName(a: Action): string {
    match a
    case RunStep(name) => name
    case Send(_, _, _) => SEND
    case Recv(_) => RECV
    case SetEvent(_, _) => SET_EVENT
    case WriteStream(_, v) => StreamOpName(v)
    case Finish(_) => ""
  }

  /** Function ids an operation reserves: `recv` takes a second one for its durable timeout. */
  function Width(a: Action): nat {
    if a.Recv? then 2 else 1
  }

  /** What a replayed operation hands back, given its checkpoint. */
  function ReplayRes(a: Action, rec: OpRecord): Res {
    match a
    case RunStep(_) =>
      if rec.error.Some? then Raised(rec.error.value)
      else if rec.output.Some? then Returned(rec.output.value)
      else Raised("Output and error are both None")
    case Recv(_) =>
      if rec.output.Some? then Returned(rec.output.value) else Raised("No output recorded in the last recv")
    case _ => Unit
  }

  /** The checkpoint an operation leaves when it hands `res` back. */
  function RecOf(a: Action, res: Res): OpRecord {
    OpRecord(OpName(a),
             if res.Returned? then Some(res.v) else None,
             if res.Raised? then Some(res.e) else None,
             None)
  }

  /** The results an operation can produce and checkpoint. */
  predicate Recordable(a: Action, res: Res) {
    match a
    case RunStep(_) => res.Returned? || res.Raised?
    case Recv(_) => res.Returned? || res.NoMessage?
    case Finish(_) => false
    case _ => res.Unit?
  }

  /** Replaying a checkpoint gives back the result that was recorded, except for one case:
      a `recv` that timed out returned nothing, and its replay raises. */
  lemma ReplayAgrees(a: Action, res: Res)
    requires Recordable(a, res)
    ensures ReplayRes(a, RecOf(a, res)) == res <==> !res.NoMessage?
  {
  }

  // ----- state -----

  datatype Phase =
    | Ready
    | Running(f: nat)             // the checkpoint was absent and the step body runs
    | Ran(f: nat, res: Res)       // the body ended and its result is being recorded
    | Waiting(f: nat)             // `recv`: the checkpoint was absent

  /** The volatile context: results seen so far, the function-id counter, the current phase. */
  datatype Exec = Exec(hist: seq<Res>, fid: nat, phase: Phase)

  datatype Sent = Sent(id: string, from: Id, body: Value)
  datatype Got = Got(id: string, fid: nat, body: Value)

  /** `log`, `sent`, `got` and `unlogged` are history variables. They record, in commit order,
      the results checkpointed for each workflow, the messages sent to and received by each
      (workflow, topic), and the workflows that were shown a result no checkpoint holds. */
  datatype State = State(
    db: Db,
    live: map<Id, Exec>,
    log: map<Id, seq<Res>>,
    unlogged: set<Id>,
    sent: map<(Id, string), seq<Sent>>,
    got: map<(Id, string), seq<Got>>)

  function Log(s: State, wf: Id): seq<Res> {
    if wf in s.log then s.log[wf] else []
  }

  function SentTo(s: State, d: Id, t: string): seq<Sent> {
    if (d, t) in s.sent then s.sent[(d, t)] else []
  }

  function GotBy(s: State, d: Id, t: string): seq<Got> {
    if (d, t) in s.got then s.got[(d, t)] else []
  }

  // ----- transitions -----

  function Grow(s: State, wf: Id, res: Res): map<Id, seq<Res>> {
    s.log[wf := Log(s, wf) + [res]]
  }

  /** The context after an operation has handed `res` back. */
  function Advance(e: Exec, a: Action, res: Res): Exec {
    Exec(e.hist + [res], e.fid + Width(a), Ready)
  }

  predicate About(code: Code, s: State, wf: Id) {
    wf in s.live && s.live[wf].phase.Ready? && !code(wf, s.live[wf].hist).Finish?
  }

  function Next(code: Code, s: State, wf: Id): Action
    requires wf in s.live
  {
    code(wf, s.live[wf].hist)
  }

  /** The lookup that precedes every operation. */
  function Lookup(code: Code, s: State, wf: Id): Result<Option<OpRecord>, LogError>
    requires wf in s.live
  {
    CheckOperation(s.db, wf, s.live[wf].fid + 1, OpName(Next(code, s, wf)))
  }

  /** `Lookup` found nothing, so the operation runs. */
  predicate Fresh(code: Code, s: State, wf: Id) {
    About(code, s, wf) && Lookup(code, s, wf) == Ok(None)
  }

  function SetExec(s: State, wf: Id, e: Exec): State {
    s.(live := s.live[wf := e])
  }

  predicate Begin(code: Code, s: State, s': State, wf: Id) {
    && wf in s.db.status && !Completed(s.db.status[wf]) && wf !in s.live
    && s' == SetExec(s, wf, Exec([], 0, Ready))
  }

  predicate Crash(code: Code, s: State, s': State, wf: Id) {
    s' == s.(live := s.live - {wf})
  }

  /** A checkpoint is found and returned instead of running the operation. */
  predicate Replay(code: Code, s: State, s': State, wf: Id) {
    && About(code, s, wf)
    && var r := Lookup(code, s, wf);
       r.Ok? && r.value.Some?
       && s' == SetExec(s, wf, Advance(s.live[wf], Next(code, s, wf), ReplayRes(Next(code, s, wf), r.value.value)))
  }

  /** A cancelled workflow stops at its next operation. */
  predicate Abort(code: Code, s: State, s': State, wf: Id) {
    && About(code, s, wf) && Lookup(code, s, wf) == Err(WorkflowCancelled)
    && s' == s.(live := s.live - {wf})
  }

  /** The checkpoint belongs to another operation: `DBOSUnexpectedStepError` is raised. */
  predicate Unexpected(code: Code, s: State, s': State, wf: Id) {
    && About(code, s, wf) && Lookup(code, s, wf) == Err(UnexpectedStep)
    && s' == SetExec(s, wf, Advance(s.live[wf], Next(code, s, wf), Raised("DBOSUnexpectedStepError")))
             .(unlogged := s.unlogged + {wf})
  }

  predicate StartStep(code: Code, s: State, s': State, wf: Id) {
    && Fresh(code, s, wf) && Next(code, s, wf).RunStep?
    && s' == SetExec(s, wf, s.live[wf].(phase := Running(s.live[wf].fid + 1)))
  }

  /** A step body may append to streams and set events while it runs. */
  ghost predicate StepAppend(code: Code, s: State, s': State, wf: Id, key: string, value: Value) {
    && wf in s.live && s.live[wf].phase.Running?
    && s' == s.(db := Append(s.db, wf, s.live[wf].phase.f, key, value))
  }

  predicate StepEvent(code: Code, s: State, s': State, wf: Id, key: string, value: Value) {
    && wf in s.live && s.live[wf].phase.Running?
    && s' == s.(db := PutEvent(s.db, wf, s.live[wf].phase.f, key, value))
  }

  predicate EndStep(code: Code, s: State, s': State, wf: Id, res: Res) {
    && wf in s.live && s.live[wf].phase.Running? && (res.Returned? || res.Raised?)
    && s' == SetExec(s, wf, s.live[wf].(phase := Ran(s.live[wf].phase.f, res)))
  }

  /** Records the result. With `acked` false the commit happens but its acknowledgement is
      lost, so the same record is written again later. */
  predicate RecordStep(code: Code, s: State, s': State, wf: Id, executor: Option<string>, acked: bool) {
    && wf in s.live && s.live[wf].phase.Ran? && wf in s.db.status
    && var e := s.live[wf];
       var a := Next(code, s, wf);
       var k := (wf, e.phase.f);
       s' == s.(db := RecordOperation(s.db, wf, e.phase.f, RecOf(a, e.phase.res), executor),
                log := if k in s.db.ops then s.log else Grow(s, wf, e.phase.res),
                live := if acked then s.live[wf := Advance(e, a, e.phase.res)] else s.live)
  }

  function AfterUnit(code: Code, s: State, wf: Id, acked: bool): map<Id, Exec>
    requires wf in s.live
  {
    if acked then s.live[wf := Advance(s.live[wf], Next(code, s, wf), Unit)] else s.live
  }

  /** Message ids are never used twice. */
  predicate Unused(s: State, id: string) {
    forall b, i | b in s.sent && 0 <= i < |s.sent[b]| :: s.sent[b][i].id != id
  }

  /** The message is stored and the send checkpointed, at any time `now` the database may give. */
  ghost predicate DoSend(code: Code, s: State, s': State, wf: Id, id: string, now: int, executor: Option<string>,
                         acked: bool) {
    && Fresh(code, s, wf) && Next(code, s, wf).Send?
    && var a := Next(code, s, wf);
       var f := s.live[wf].fid + 1;
       && a.dest in s.db.status
       && id !in s.db.notes && Unused(s, id)
       && s' == s.(db := SendTxn(s.db, wf, f, id, Note(a.dest, a.topic, a.body, now), executor),
                   log := Grow(s, wf, Unit),
                   live := AfterUnit(code, s, wf, acked),
                   sent := s.sent[(a.dest, a.topic) := SentTo(s, a.dest, a.topic) + [Sent(id, wf, a.body)]])
  }

  /** The destination does not exist: the send raises and nothing is recorded. */
  predicate SendNowhere(code: Code, s: State, s': State, wf: Id) {
    && Fresh(code, s, wf) && Next(code, s, wf).Send?
    && Next(code, s, wf).dest !in s.db.status
    && s' == SetExec(s, wf, Advance(s.live[wf], Next(code, s, wf), Raised("DBOSNonExistentWorkflowError")))
             .(unlogged := s.unlogged + {wf})
  }

  predicate DoSetEvent(code: Code, s: State, s': State, wf: Id, executor: Option<string>, acked: bool) {
    && Fresh(code, s, wf) && Next(code, s, wf).SetEvent?
    && var a := Next(code, s, wf);
       s' == s.(db := SetEventTxn(s.db, wf, s.live[wf].fid + 1, a.key, a.value, executor),
                log := Grow(s, wf, Unit),
                live := AfterUnit(code, s, wf, acked))
  }

  ghost predicate DoWriteStream(code: Code, s: State, s': State, wf: Id, executor: Option<string>, acked: bool) {
    && Fresh(code, s, wf) && Next(code, s, wf).WriteStream?
    && var a := Next(code, s, wf);
       s' == s.(db := WriteStreamTxn(s.db, wf, s.live[wf].fid + 1, a.key, a.value, executor),
                log := Grow(s, wf, Unit),
                live := AfterUnit(code, s, wf, acked))
  }

  predicate StartRecv(code: Code, s: State, s': State, wf: Id) {
    && Fresh(code, s, wf) && Next(code, s, wf).Recv?
    && s' == SetExec(s, wf, s.live[wf].(phase := Waiting(s.live[wf].fid + 1)))
  }

  /** The durable timeout of a `recv` is a `DBOS.sleep` checkpoint under the next function id. */
  predicate RecvSleep(code: Code, s: State, s': State, wf: Id, wake: Value, executor: Option<string>) {
    && wf in s.live && s.live[wf].phase.Waiting?
    && var f := s.live[wf].phase.f + 1;
       && CheckOperation(s.db, wf, f, SLEEP) == Ok(None)
       && s' == s.(db := RecordOperation(s.db, wf, f, OpRecord(SLEEP, Some(wake), None, None), executor))
  }

  predicate RecvSleepUnexpected(code: Code, s: State, s': State, wf: Id) {
    && wf in s.live && s.live[wf].phase.Waiting?
    && CheckOperation(s.db, wf, s.live[wf].phase.f + 1, SLEEP) == Err(UnexpectedStep)
    && s' == SetExec(s, wf, Advance(s.live[wf], Next(code, s, wf), Raised("DBOSUnexpectedStepError")))
             .(unlogged := s.unlogged + {wf})
  }

  /** Consumes the oldest message. When the acknowledgement is lost the call starts over. */
  ghost predicate DoRecv(code: Code, s: State, s': State, wf: Id, id: string, executor: Option<string>, acked: bool) {
    && wf in s.live && s.live[wf].phase.Waiting? && Next(code, s, wf).Recv? && wf in s.db.status
    && var t := Next(code, s, wf).topic;
       var e := s.live[wf];
       && Oldest(s.db, id, wf, t)
       && var res := Returned(s.db.notes[id].body);
          s' == s.(db := RecvTxn(s.db, wf, e.phase.f, id, executor),
                   log := Grow(s, wf, res),
                   live := s.live[wf := if acked then Advance(e, Recv(t), res) else e.(phase := Ready)],
                   got := s.got[(wf, t) := GotBy(s, wf, t) + [Got(id, e.phase.f, s.db.notes[id].body)]])
  }

  ghost predicate RecvTimeout(code: Code, s: State, s': State, wf: Id, executor: Option<string>, acked: bool) {
    && wf in s.live && s.live[wf].phase.Waiting? && Next(code, s, wf).Recv? && wf in s.db.status
    && var e := s.live[wf];
       && (forall id :: !Addressed(s.db, id, wf, Next(code, s, wf).topic))
       && s' == s.(db := RecvTimeoutTxn(s.db, wf, e.phase.f, executor),
                   live := s.live[wf := if acked then Advance(e, Next(code, s, wf), NoMessage) else e.(phase := Ready)],
                   unlogged := s.unlogged + {wf})
  }

  predicate DoFinish(code: Code, s: State, s': State, wf: Id, acked: bool) {
    && wf in s.live && s.live[wf].phase.Ready? && Next(code, s, wf).Finish? && wf in s.db.status
    && s' == s.(db := s.db.(status := UpdateOutcome(s.db.status, wf, Next(code, s, wf).outcome)),
                live := if acked then s.live - {wf} else s.live)
  }

  /** Everything else that happens to `workflow_status`: starts, dequeues, cancels, resumes.
      Rows are not removed, and a row neither becomes completed nor stops being so. */
  ghost predicate StatusKept(st: StatusTable, st': StatusTable) {
    forall w :: w in st ==>
      && w in st'
      && (Completed(st[w]) <==> Completed(st'[w]))
      && st'[w].output == st[w].output && st'[w].error == st[w].error
      && (Completed(st[w]) ==> st'[w].status == st[w].status)
  }

  ghost predicate StatusStep(code: Code, s: State, s': State) {
    && StatusKept(s.db.status, s'.db.status)
    && (forall w :: w in s'.db.status && w !in s.db.status ==> !Completed(s'.db.status[w]))
    && s' == s.(db := s.db.(status := s'.db.status))
  }

  /** The transitions of one workflow, with the choices its environment makes. */
  datatype Move =
    | BeginM
    | CrashM
    | ReplayM
    | AbortM
    | UnexpectedM
    | StartStepM
    | StepAppendM(key: string, value: Value)
    | StepEventM(key: string, value: Value)
    | EndStepM(res: Res)
    | RecordStepM(executor: Option<string>, acked: bool)
    | SendM(id: string, now: int, executor: Option<string>, acked: bool)
    | SendNowhereM
    | SetEventM(executor: Option<string>, acked: bool)
    | WriteStreamM(executor: Option<string>, acked: bool)
    | StartRecvM
    | RecvSleepM(wake: Value, executor: Option<string>)
    | RecvSleepUnexpectedM
    | RecvM(id: string, executor: Option<string>, acked: bool)
    | RecvTimeoutM(executor: Option<string>, acked: bool)
    | FinishM(acked: bool)

  ghost predicate WorkflowStep(code: Code, s: State, s': State, wf: Id, m: Move) {
    match m
    case BeginM => Begin(code, s, s', wf)
    case CrashM => Crash(code, s, s', wf)
    case ReplayM => Replay(code, s, s', wf)
    case AbortM => Abort(code, s, s', wf)
    case UnexpectedM => Unexpected(code, s, s', wf)
    case StartStepM => StartStep(code, s, s', wf)
    case StepAppendM(k, v) => StepAppend(code, s, s', wf, k, v)
    case StepEventM(k, v) => StepEvent(code, s, s', wf, k, v)
    case EndStepM(res) => EndStep(code, s, s', wf, res)
    case RecordStepM(x, acked) => RecordStep(code, s, s', wf, x, acked)
    case SendM(id, now, x, acked) => DoSend(code, s, s', wf, id, now, x, acked)
    case SendNowhereM => SendNowhere(code, s, s', wf)
    case SetEventM(x, acked) => DoSetEvent(code, s, s', wf, x, acked)
    case WriteStreamM(x, acked) => DoWriteStream(code, s, s', wf, x, acked)
    case StartRecvM => StartRecv(code, s, s', wf)
    case RecvSleepM(wake, x) => RecvSleep(code, s, s', wf, wake, x)
    case RecvSleepUnexpectedM => RecvSleepUnexpected(code, s, s', wf)
    case RecvM(id, x, acked) => DoRecv(code, s, s', wf, id, x, acked)
    case RecvTimeoutM(x, acked) => RecvTimeout(code, s, s', wf, x, acked)
    case FinishM(acked) => DoFinish(code, s, s', wf, acked)
  }

  ghost predicate Step(code: Code, s: State, s': State) {
    StatusStep(code, s, s') || exists wf, m :: WorkflowStep(code, s, s', wf, m)
  }

  /** No operation has happened yet. */
  predicate Initial(s: State) {
    && s.db.ops == map[] && s.db.notes == map[] && s.db.events == map[]
    && s.db.history == map[] && s.db.streams == map[]
    && (forall w | w in s.db.status :: !Completed(s.db.status[w]))
    && s.live == map[] && s.log == map[] && s.unlogged == {} && s.sent == map[] && s.got == map[]
  }

  ghost predicate Run(code: Code, run: seq<State>) {
    && |run| > 0 && Initial(run[0])
    && forall i :: 0 <= i < |run| - 1 ==> StepAt(code, run, i)
  }

  ghost predicate StepAt(code: Code, run: seq<State>, i: nat)
    requires i + 1 < |run|
  {
    Step(code, run[i], run[i + 1])
  }
}
