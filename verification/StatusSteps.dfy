/** The kernel lets anything happen to `workflow_status` that keeps completed workflows as they
    are. This is what every transaction of the workflow life cycle does. */
module StatusSteps {
  import opened SystemTables
  import WorkflowRows
  import Lifecycle
  import Kernel

  /** Outcomes are written by the workflow's own execution, and rows are not removed under it. */
  predicate FromOutside(e: Lifecycle.Event) {
    !e.OutcomeE? && !e.DeleteE? && !e.CollectE? && !(e.StartE? && e.req.status.Success?)
  }

  lemma EveryEventIsAStatusStep(queues: map<string, WorkflowRows.Queue>, code: Kernel.Code, s: Kernel.State,
                                e: Lifecycle.Event, st': StatusTable)
    requires Lifecycle.Next(queues, s.db.status, e, st') && FromOutside(e)
    ensures Kernel.StatusStep(code, s, s.(db := s.db.(status := st')))
  {
    forall w | w in s.db.status
      ensures w in st' && Completed(s.db.status[w]) == Completed(st'[w])
      ensures st'[w].output == s.db.status[w].output && st'[w].error == s.db.status[w].error
      ensures Completed(s.db.status[w]) ==> st'[w].status == s.db.status[w].status
    {
      match e
      case StartE(req, c, now, result) =>
      case _ =>
    }
  }
}
