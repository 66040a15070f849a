/** The order of messages. It holds when timestamps follow the order of the commits; exactly-once
    delivery does not need that. */
module MessageOrder {
  import opened SystemTables
  import opened OperationLog
  import opened Kernel
  import opened Replay
  import opened Messages

  /** A message stored in this step is later than those already waiting beside it. */
  ghost predicate Timely(s: State, s': State) {
    forall d, t, id, m :: Addressed(s'.db, id, d, t) && id !in s.db.notes && Addressed(s.db, m, d, t) ==>
      s.db.notes[m].createdAt < s'.db.notes[id].createdAt
  }

  ghost predicate TimelyAt(run: seq<State>, i: nat)
    requires i + 1 < |run|
  {
    Timely(run[i], run[i + 1])
  }

  ghost predicate TimelyRun(run: seq<State>) {
    forall i :: 0 <= i < |run| - 1 ==> TimelyAt(run, i)
  }

  ghost predicate Before(db: Db, a: Sent, b: Sent) {
    a.id in db.notes && b.id in db.notes && db.notes[a.id].createdAt < db.notes[b.id].createdAt
  }

  /** Messages are taken in the order they were sent, and the others wait with rising timestamps. */
  ghost predicate InOrder(s: State, d: Id, t: string) {
    var all, got := SentTo(s, d, t), GotBy(s, d, t);
    && |got| <= |all|
    && (forall i :: 0 <= i < |got| ==> TakenBy(all[i], got[i]))
    && (forall i, j :: |got| <= i < j < |all| ==> Before(s.db, all[i], all[j]))
  }

  lemma WaitsStored(s: State, d: Id, t: string, j: nat)
    requires MailboxInv(s, d, t) && InOrder(s, d, t) && IdsUnique(s.sent)
    requires |GotBy(s, d, t)| <= j < |SentTo(s, d, t)|
    ensures Stored(s, d, t, j)
  {
    var all, got := SentTo(s, d, t), GotBy(s, d, t);
    assert Stored(s, d, t, j) || Taken(s, d, t, j);
    if i :| 0 <= i < |got| && TakenBy(all[j], got[i]) {
      assert TakenBy(all[i], got[i]) && (d, t) in s.sent;
    }
  }

  /** The oldest stored message is the first one not yet received. */
  lemma OldestIsNext(s: State, d: Id, t: string, id: string)
    requires MailboxInv(s, d, t) && InOrder(s, d, t) && IdsUnique(s.sent) && Oldest(s.db, id, d, t)
    ensures |GotBy(s, d, t)| < |SentTo(s, d, t)|
    ensures SentTo(s, d, t)[|GotBy(s, d, t)|].id == id
    ensures SentTo(s, d, t)[|GotBy(s, d, t)|].body == s.db.notes[id].body
  {
    var all, n := SentTo(s, d, t), |GotBy(s, d, t)|;
    var j := StoredIsSent(s, d, t, id);
    StillDelivered(s, d, t);
    assert j < n ==> TakenBy(all[j], GotBy(s, d, t)[j]);
    WaitsStored(s, d, t, n);
    assert n < j ==> Before(s.db, all[n], all[j]);
  }

  /** A mailbox stays in order when its messages and what was taken from it are kept. */
  lemma SameOrder(s: State, s': State, d: Id, t: string)
    requires MailboxInv(s, d, t) && InOrder(s, d, t) && IdsUnique(s.sent)
    requires SentTo(s', d, t) == SentTo(s, d, t) && GotBy(s', d, t) == GotBy(s, d, t)
    requires forall m :: Addressed(s.db, m, d, t) ==> m in s'.db.notes && s'.db.notes[m] == s.db.notes[m]
    ensures InOrder(s', d, t)
  {
    var all, got := SentTo(s, d, t), GotBy(s, d, t);
    forall i, j | |got| <= i < j < |all|
      ensures Before(s'.db, all[i], all[j])
    {
      WaitsStored(s, d, t, i);
      WaitsStored(s, d, t, j);
      assert Before(s.db, all[i], all[j]);
    }
  }

  lemma SentInOrder(s: State, s': State, d: Id, t: string, id: string, wf: Id, body: Value, now: int)
    requires MailboxInv(s, d, t) && InOrder(s, d, t) && IdsUnique(s.sent) && Timely(s, s')
    requires id !in s.db.notes && s'.db.notes == s.db.notes[id := Note(d, t, body, now)]
    requires SentTo(s', d, t) == SentTo(s, d, t) + [Sent(id, wf, body)] && GotBy(s', d, t) == GotBy(s, d, t)
    ensures InOrder(s', d, t)
  {
    var all, got, all' := SentTo(s, d, t), GotBy(s, d, t), SentTo(s', d, t);
    forall i, j | |got| <= i < j < |all'|
      ensures Before(s'.db, all'[i], all'[j])
    {
      WaitsStored(s, d, t, i);
      if j < |all| {
        WaitsStored(s, d, t, j);
        assert Before(s.db, all[i], all[j]);
      } else {
        assert Addressed(s'.db, id, d, t) && Addressed(s.db, all[i].id, d, t);
      }
    }
  }

  lemma TakenInOrder(s: State, s': State, d: Id, t: string, id: string, f: nat)
    requires MailboxInv(s, d, t) && InOrder(s, d, t) && IdsUnique(s.sent) && Oldest(s.db, id, d, t)
    requires s'.db.notes == s.db.notes - {id} && SentTo(s', d, t) == SentTo(s, d, t)
    requires GotBy(s', d, t) == GotBy(s, d, t) + [Got(id, f, s.db.notes[id].body)]
    ensures InOrder(s', d, t)
  {
    OldestIsNext(s, d, t, id);
    var all, got := SentTo(s, d, t), GotBy(s, d, t);
    assert (d, t) in s.sent;
    forall i, j | |got| + 1 <= i < j < |all|
      ensures Before(s'.db, all[i], all[j])
    {
      assert Before(s.db, all[i], all[j]);
      assert all[i].id != all[|got|].id && all[j].id != all[|got|].id;
    }
  }

  lemma SendKeepsOrder(code: Code, s: State, s': State, wf: Id, id: string, now: int, x: Option<string>, acked: bool,
                       d: Id, t: string)
    requires MailboxInv(s, d, t) && InOrder(s, d, t) && IdsUnique(s.sent) && Timely(s, s')
    requires DoSend(code, s, s', wf, id, now, x, acked)
    ensures InOrder(s', d, t)
  {
    var a := Next(code, s, wf);
    if d == a.dest && t == a.topic {
      SentInOrder(s, s', d, t, id, wf, a.body, now);
    } else {
      SameOrder(s, s', d, t);
    }
  }

  lemma RecvKeepsOrder(code: Code, s: State, s': State, wf: Id, id: string, x: Option<string>, acked: bool, d: Id,
                       t: string)
    requires MailboxInv(s, d, t) && InOrder(s, d, t) && IdsUnique(s.sent)
    requires DoRecv(code, s, s', wf, id, x, acked)
    ensures InOrder(s', d, t)
  {
    if d == wf && t == Next(code, s, wf).topic {
      TakenInOrder(s, s', d, t, id, s.live[wf].phase.f);
    } else {
      SameOrder(s, s', d, t);
    }
  }

  lemma MoveKeepsOrder(code: Code, s: State, s': State, wf: Id, m: Move, d: Id, t: string)
    requires MailboxInv(s, d, t) && InOrder(s, d, t) && IdsUnique(s.sent) && Timely(s, s')
    requires WorkflowStep(code, s, s', wf, m)
    ensures InOrder(s', d, t)
  {
    if m.SendM? {
      SendKeepsOrder(code, s, s', wf, m.id, m.now, m.executor, m.acked, d, t);
    } else if m.RecvM? {
      RecvKeepsOrder(code, s, s', wf, m.id, m.executor, m.acked, d, t);
    } else {
      OtherMovesAreQuiet(code, s, s', wf, m);
      SameOrder(s, s', d, t);
    }
  }

  lemma {:induction false} RunKeepsOrder(code: Code, run: seq<State>, i: nat, d: Id, t: string)
    requires Run(code, run) && TimelyRun(run) && i < |run|
    ensures InOrder(run[i], d, t)
  {
    if i > 0 {
      var s, s' := run[i - 1], run[i];
      RunKeepsOrder(code, run, i - 1, d, t);
      RunKeepsMessagesInv(code, run, i - 1);
      assert MailboxInv(s, d, t);
      assert StepAt(code, run, i - 1) && TimelyAt(run, i - 1);
      if StatusStep(code, s, s') {
        SameOrder(s, s', d, t);
      } else {
        var wf, m :| WorkflowStep(code, s, s', wf, m);
        MoveKeepsOrder(code, s, s', wf, m, d, t);
      }
    } else {
      assert SentTo(run[0], d, t) == [] && GotBy(run[0], d, t) == [];
    }
  }

  /** The bodies of the messages of a mailbox, in the order they were sent. */
  ghost function SentBodies(sent: seq<Sent>): seq<Value> {
    seq(|sent|, i requires 0 <= i < |sent| => sent[i].body)
  }

  /** With timestamps in commit order, what a workflow's trace received on a topic is, in order, a
      prefix of what was sent there. */
  lemma ReceivedIsPrefixOfSent(code: Code, run: seq<State>, i: nat, wf: Id, h: seq<Res>, t: string)
    requires Run(code, run) && TimelyRun(run) && i < |run|
    requires wf !in run[i].unlogged && IsTrace(code, wf, h, run[i].db.ops)
    ensures ReceivedIn(code, wf, h, t) <= SentBodies(SentTo(run[i], wf, t))
  {
    TraceSendsAndReceivesOnce(code, run, i, wf, h);
    RunKeepsOrder(code, run, i, wf, t);
    var all, got := SentTo(run[i], wf, t), GotBy(run[i], wf, t);
    assert forall k :: 0 <= k < |got| ==> TakenBy(all[k], got[k]);
    assert Bodies(got) == SentBodies(all)[..|got|];
  }
}
