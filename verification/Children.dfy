/** Child workflows: the transitive closure of the child edges recorded in `operation_outputs`.
    The edges may form cycles, since reading another workflow's result records one too. */
module Children {
  import opened SystemTables

  ghost predicate ChildOf(ops: OpTable, parent: Id, child: Id) {
    exists f :: (parent, f) in ops && ops[(parent, f)].child == Some(child)
  }

  ghost predicate IsPath(ops: OpTable, path: seq<Id>) {
    forall i :: 0 <= i < |path| - 1 ==> ChildOf(ops, path[i], path[i + 1])
  }

  ghost predicate Connects(ops: OpTable, path: seq<Id>, from: Id, to: Id) {
    |path| > 1 && path[0] == from && path[|path| - 1] == to && IsPath(ops, path)
  }

  /** By one or more child edges. */
  ghost predicate Reachable(ops: OpTable, from: Id, to: Id) {
    exists path :: Connects(ops, path, from, to)
  }

  function ChildRows(ops: OpTable, parent: Id): set<(Id, nat)> {
    set k | k in ops && k.0 == parent && ops[k].child.Some?
  }

  function AllChildren(ops: OpTable): set<Id> {
    set k | k in ops && ops[k].child.Some? :: ops[k].child.value
  }

  lemma ExtendReachable(ops: OpTable, from: Id, via: Id, to: Id)
    requires via == from || Reachable(ops, from, via)
    requires ChildOf(ops, via, to)
    ensures Reachable(ops, from, to)
  {
    var path := [from];
    if via != from {
      path :| Connects(ops, path, from, via);
    }
    assert Connects(ops, path + [to], from, to);
  }

  ghost predicate ClosedAt(ops: OpTable, parent: Id, children: set<Id>) {
    forall c :: ChildOf(ops, parent, c) ==> c in children
  }

  /** A set that holds the children of `from` and of each of its members holds all that
      `from` reaches. */
  lemma {:induction false} ClosureHoldsPath(ops: OpTable, from: Id, children: set<Id>, path: seq<Id>, i: nat)
    requires IsPath(ops, path) && 0 < i < |path| && path[0] == from
    requires ClosedAt(ops, from, children) && forall c :: c in children ==> ClosedAt(ops, c, children)
    ensures path[i] in children
  {
    if i > 1 {
      ClosureHoldsPath(ops, from, children, path, i - 1);
    }
    assert ChildOf(ops, path[i - 1], path[i]);
  }

  lemma ClosureHoldsReachable(ops: OpTable, from: Id, children: set<Id>, to: Id)
    requires ClosedAt(ops, from, children) && forall c :: c in children ==> ClosedAt(ops, c, children)
    requires Reachable(ops, from, to)
    ensures to in children
  {
    var path :| Connects(ops, path, from, to);
    ClosureHoldsPath(ops, from, children, path, |path| - 1);
  }

  ghost predicate AllReachable(ops: OpTable, from: Id, children: set<Id>) {
    forall c :: c in children ==> Reachable(ops, from, c)
  }

  /** Adds the children of one workflow; those not met before also go on the worklist. */
  method AddChildren(ops: OpTable, current: Id, children: set<Id>, toProcess: seq<Id>)
    returns (children': set<Id>, toProcess': seq<Id>)
    ensures forall c :: c in children' <==> c in children || ChildOf(ops, current, c)
    ensures forall x :: x in toProcess' <==> x in toProcess || x in children' - children
    ensures children' == children ==> toProcess' == toProcess
  {
    children', toProcess' := children, toProcess;
    var rows := ChildRows(ops, current);
    ghost var all := rows;
    while rows != {}
      invariant rows <= all
      invariant forall c :: c in children' ==> c in children || ChildOf(ops, current, c)
      invariant children <= children'
      invariant forall k :: k in all && k !in rows ==> ops[k].child.value in children'
      invariant forall x :: x in toProcess' <==> x in toProcess || x in children' - children
      invariant children' == children ==> toProcess' == toProcess
    {
      var k :| k in rows;
      rows := rows - {k};
      var childId := ops[k].child.value;
      assert ChildOf(ops, current, childId) by {
        assert k == (current, k.1);
      }
      if childId !in children' {
        children' := children' + {childId};
        toProcess' := toProcess' + [childId];
      }
    }
    forall c | ChildOf(ops, current, c)
      ensures c in children'
    {
      var f :| (current, f) in ops && ops[(current, f)].child == Some(c);
      assert (current, f) in all;
    }
  }

  lemma StaysReachable(ops: OpTable, wf: Id, current: Id, before: set<Id>, children: set<Id>)
    requires before <= AllChildren(ops) && AllReachable(ops, wf, before)
    requires current == wf || current in before
    requires forall c :: c in children ==> c in before || ChildOf(ops, current, c)
    ensures children <= AllChildren(ops) && AllReachable(ops, wf, children)
  {
    forall c | c in children
      ensures Reachable(ops, wf, c) && c in AllChildren(ops)
    {
      if c !in before {
        ExtendReachable(ops, wf, current, c);
      }
    }
  }

  lemma FewerLeft(ops: OpTable, before: set<Id>, children: set<Id>)
    requires before <= children <= AllChildren(ops)
    ensures before != children ==> |AllChildren(ops) - children| < |AllChildren(ops) - before|
  {
    if before != children {
      var c :| c in children && c !in before;
      assert c in AllChildren(ops) - before && c !in AllChildren(ops) - children;
      SmallerSet(AllChildren(ops) - children, AllChildren(ops) - before);
    }
  }

  /** Everything met is on the worklist or has all its children among those found. */
  ghost predicate WorklistOk(ops: OpTable, wf: Id, children: set<Id>, toProcess: seq<Id>) {
    && (forall x :: x in toProcess ==> x == wf || x in children)
    && (forall x :: x == wf || x in children ==> x in toProcess || ClosedAt(ops, x, children))
  }

  lemma WorklistStays(ops: OpTable, wf: Id, current: Id, before: set<Id>, rest: seq<Id>, children: set<Id>,
                      toProcess: seq<Id>)
    requires WorklistOk(ops, wf, before, rest + [current])
    requires forall c :: c in children <==> c in before || ChildOf(ops, current, c)
    requires forall x :: x in toProcess <==> x in rest || x in children - before
    ensures WorklistOk(ops, wf, children, toProcess)
  {
    forall x | x == wf || x in children
      ensures x in toProcess || ClosedAt(ops, x, children)
    {
      assert x in rest + [current] <==> x in rest || x == current;
      assert x in before ==> x in rest + [current] || ClosedAt(ops, x, before);
    }
    assert (rest + [current])[|rest|] == current;
  }

  /** `get_workflow_children`: exactly the workflows reachable by one or more child edges; the
      workflow itself is among them only when it lies on a cycle. */
  method GetWorkflowChildren(ops: OpTable, wf: Id) returns (children: set<Id>)
    ensures forall c :: c in children <==> Reachable(ops, wf, c)
  {
    children := {};
    var toProcess := [wf];
    while toProcess != []
      invariant children <= AllChildren(ops)
      invariant AllReachable(ops, wf, children)
      invariant WorklistOk(ops, wf, children, toProcess)
      decreases |AllChildren(ops) - children|, |toProcess|
    {
      var last := |toProcess| - 1;
      var current, rest := toProcess[last], toProcess[..last];
      assert toProcess == rest + [current];
      ghost var before := children;
      children, toProcess := AddChildren(ops, current, children, rest);
      StaysReachable(ops, wf, current, before, children);
      WorklistStays(ops, wf, current, before, rest, children, toProcess);
      FewerLeft(ops, before, children);
    }
    forall c | Reachable(ops, wf, c)
      ensures c in children
    {
      ClosureHoldsReachable(ops, wf, children, c);
    }
  }

  lemma SmallerSet(a: set<Id>, b: set<Id>)
    requires a < b
    ensures |a| < |b|
  {
    assert b == a + (b - a);
    assert b - a != {};
  }
}
