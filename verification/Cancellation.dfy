/** What cancelling a workflow stops, over every run of the kernel. */
module Cancellation {
  import opened SystemTables
  import opened Kernel
  import opened Replay

  ghost predicate CancelledIn(s: State, wf: Id) {
    wf in s.db.status && s.db.status[wf].status.Cancelled?
  }

  ghost predicate CancelledFrom(run: seq<State>, i: nat, j: nat, wf: Id)
    requires i <= j < |run|
  {
    forall k :: i <= k <= j ==> CancelledIn(run[k], wf)
  }

  /** No body of the workflow runs, none has just ended, and it waits for no message. */
  ghost predicate Idle(s: State, wf: Id) {
    wf in s.live ==> s.live[wf].phase.Ready?
  }

  ghost predicate SameChecks(s: State, s': State, wf: Id) {
    && Log(s', wf) == Log(s, wf)
    && forall f :: (wf, f) in s.db.ops <==> (wf, f) in s'.db.ops
  }

  /** Every operation asks for its checkpoint first, and is told that the workflow is cancelled. */
  lemma OnlyEnds(code: Code, s: State, s': State, wf: Id, m: Move)
    requires CancelledIn(s, wf) && Idle(s, wf) && WorkflowStep(code, s, s', wf, m)
    ensures m.BeginM? || m.CrashM? || m.AbortM? || m.FinishM?
  {
  }

  lemma StepStaysIdle(code: Code, s: State, s': State, wf: Id)
    requires CancelledIn(s, wf) && Idle(s, wf) && Step(code, s, s')
    ensures Idle(s', wf) && SameChecks(s, s', wf)
  {
    if !StatusStep(code, s, s') {
      var w, m :| WorkflowStep(code, s, s', w, m);
      if w == wf {
        OnlyEnds(code, s, s', wf, m);
      } else if ContextOnly(m) {
        ContextElsewhere(code, s, s', w, wf, m);
      } else {
        TableElsewhere(code, s, s', w, wf, m);
      }
    }
  }

  /** Cancellation. While a workflow is cancelled, from a moment at which no body of it runs, none
      starts, it takes no message, and nothing is checkpointed for it, however often it is recovered. */
  lemma {:induction false} CancelledStaysIdle(code: Code, run: seq<State>, i: nat, j: nat, wf: Id)
    requires Run(code, run) && i <= j < |run| && CancelledFrom(run, i, j, wf) && Idle(run[i], wf)
    ensures Idle(run[j], wf) && SameChecks(run[i], run[j], wf)
  {
    if i < j {
      CancelledStaysIdle(code, run, i, j - 1, wf);
      assert StepAt(code, run, j - 1) && CancelledIn(run[j - 1], wf);
      StepStaysIdle(code, run[j - 1], run[j], wf);
    }
  }

  lemma MoveStartsNothing(code: Code, s: State, s': State, wf: Id, m: Move)
    requires CancelledIn(s, wf) && WorkflowStep(code, s, s', wf, m)
    requires wf in s'.live && (s'.live[wf].phase.Running? || s'.live[wf].phase.Waiting?)
    ensures wf in s.live && s.live[wf].phase == s'.live[wf].phase
  {
  }

  lemma StepStartsNothing(code: Code, s: State, s': State, wf: Id)
    requires CancelledIn(s, wf) && Step(code, s, s')
    requires wf in s'.live && (s'.live[wf].phase.Running? || s'.live[wf].phase.Waiting?)
    ensures wf in s.live && s.live[wf].phase == s'.live[wf].phase
  {
    if !StatusStep(code, s, s') {
      var w, m :| WorkflowStep(code, s, s', w, m);
      if w == wf {
        MoveStartsNothing(code, s, s', wf, m);
      } else if ContextOnly(m) {
        ContextElsewhere(code, s, s', w, wf, m);
      } else {
        TableElsewhere(code, s, s', w, wf, m);
      }
    }
  }

  /** A body or a receive that is under way while the workflow is cancelled was under way before. */
  lemma {:induction false} NothingStarts(code: Code, run: seq<State>, i: nat, j: nat, wf: Id)
    requires Run(code, run) && i <= j < |run| && CancelledFrom(run, i, j, wf)
    requires wf in run[j].live && (run[j].live[wf].phase.Running? || run[j].live[wf].phase.Waiting?)
    ensures wf in run[i].live && run[i].live[wf].phase == run[j].live[wf].phase
  {
    if i < j {
      assert StepAt(code, run, j - 1) && CancelledIn(run[j - 1], wf);
      StepStartsNothing(code, run[j - 1], run[j], wf);
      NothingStarts(code, run, i, j - 1, wf);
    }
  }
}
