/** The function-id counter of an execution context. */
module Context {
  import opened SystemTables
  import opened Kernel
  import opened Replay

  class DBOSContext {
    var workflowId: Id
    var functionId: int

    constructor ()
      ensures workflowId == "" && functionId == -1
    {
      workflowId, functionId := "", -1;
    }

    method StartWorkflow(wfid: Id)
      modifies this
      ensures workflowId == wfid && functionId == 0
    {
      workflowId, functionId := wfid, 0;
    }

    /** The id of the next operation; `reserveSleepId` keeps one more for its timeout. */
    method SnapshotStepCtx(reserveSleepId: bool) returns (fid: int)
      modifies this`functionId
      ensures fid == old(functionId) + 1
      ensures functionId == fid + if reserveSleepId then 1 else 0
    {
      functionId := functionId + 1;
      fid := functionId;
      if reserveSleepId {
        functionId := functionId + 1;
      }
    }

    method EndWorkflow()
      modifies this
      ensures workflowId == "" && functionId == -1
    {
      workflowId, functionId := "", -1;
    }
  }

  ghost predicate IdsAre(code: Code, wf: Id, h: seq<Res>, fids: seq<int>) {
    |fids| <= |h| && forall i :: 0 <= i < |fids| ==> fids[i] == Fid(code, wf, h, i) + 1
  }

  /** Every execution of a deterministic workflow hands its operations the same ids: operation
      `i` of a trace gets the id under which the kernel looks its checkpoint up. */
  method AllocateIds(code: Code, wf: Id, h: seq<Res>) returns (fids: seq<int>)
    ensures |fids| == |h| && IdsAre(code, wf, h, fids)
  {
    var ctx := new DBOSContext();
    ctx.StartWorkflow(wf);
    fids := [];
    for i := 0 to |h|
      invariant ctx.functionId == Fid(code, wf, h, i)
      invariant IdsAre(code, wf, h, fids) && |fids| == i
    {
      FidNext(code, wf, h, i);
      var fid := ctx.SnapshotStepCtx(code(wf, h[..i]).Recv?);
      fids := fids + [fid];
    }
    ctx.EndWorkflow();
  }

  lemma FidNext(code: Code, wf: Id, h: seq<Res>, i: nat)
    requires i < |h|
    ensures Fid(code, wf, h, i + 1) == Fid(code, wf, h, i) + if code(wf, h[..i]).Recv? then 2 else 1
  {
  }

  /** No two operations of a trace share an id, and a receive's second id is nobody else's. */
  lemma IdsAreApart(code: Code, wf: Id, h: seq<Res>, i: nat, j: nat)
    requires i < j <= |h|
    ensures Fid(code, wf, h, i) + Width(code(wf, h[..i])) < Fid(code, wf, h, j) + 1
  {
    FidIncreasing(code, wf, h, i, j);
  }
}
