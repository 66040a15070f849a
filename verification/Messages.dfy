/** Sends and receives over every run, whatever the timestamps: each message is stored or
    delivered exactly once, and each operation of a trace sends or receives exactly once. */
module Messages {
  import opened SystemTables
  import opened OperationLog
  import opened Kernel
  import opened Replay

  // ----- what a trace sends and receives -----

  /** The bodies a trace sends to `(d, t)`, in order. */
  ghost function SentIn(code: Code, wf: Id, h: seq<Res>, d: Id, t: string): seq<Value> {
    if h == [] then []
    else
      var p := h[..|h| - 1];
      var a := code(wf, p);
      SentIn(code, wf, p, d, t) + if a.Send? && a.dest == d && a.topic == t then [a.body] else []
  }

  /** The values the `recv` calls of a trace on topic `t` returned, in order. */
  ghost function ReceivedIn(code: Code, wf: Id, h: seq<Res>, t: string): seq<Value> {
    if h == [] then []
    else
      var p := h[..|h| - 1];
      ReceivedIn(code, wf, p, t) + if code(wf, p) == Recv(t) && h[|h| - 1].Returned? then [h[|h| - 1].v] else []
  }

  lemma TraceSnoc(code: Code, wf: Id, h: seq<Res>, res: Res)
    ensures forall d, t :: SentIn(code, wf, h + [res], d, t)
                           == SentIn(code, wf, h, d, t)
                              + if code(wf, h).Send? && code(wf, h).dest == d && code(wf, h).topic == t
                                then [code(wf, h).body] else []
    ensures forall t :: ReceivedIn(code, wf, h + [res], t)
                        == ReceivedIn(code, wf, h, t) + if code(wf, h) == Recv(t) && res.Returned? then [res.v] else []
  {
  }

  /** The messages of a mailbox that came from one sender. */
  ghost function From(sent: seq<Sent>, wf: Id): seq<Value> {
    if sent == [] then []
    else
      From(sent[..|sent| - 1], wf)
      + if sent[|sent| - 1].from == wf then [sent[|sent| - 1].body] else []
  }

  ghost function Bodies(got: seq<Got>): seq<Value> {
    seq(|got|, i requires 0 <= i < |got| => got[i].body)
  }

  // ----- one mailbox -----

  /** Message `j` of those sent to `(d, t)` waits in `notifications`. */
  ghost predicate Stored(s: State, d: Id, t: string, j: nat)
    requires j < |SentTo(s, d, t)|
  {
    var msg := SentTo(s, d, t)[j];
    Addressed(s.db, msg.id, d, t) && s.db.notes[msg.id].body == msg.body
  }

  ghost predicate TakenBy(msg: Sent, g: Got) {
    g.id == msg.id && g.body == msg.body
  }

  ghost predicate Taken(s: State, d: Id, t: string, j: nat)
    requires j < |SentTo(s, d, t)|
  {
    exists i :: 0 <= i < |GotBy(s, d, t)| && TakenBy(SentTo(s, d, t)[j], GotBy(s, d, t)[i])
  }

  /** Message `i` of those received is gone from `notifications` and in its checkpoint. */
  ghost predicate Delivered(s: State, d: Id, t: string, i: nat)
    requires i < |GotBy(s, d, t)|
  {
    var g := GotBy(s, d, t)[i];
    && g.id !in s.db.notes && (d, g.fid) in s.db.ops
    && s.db.ops[(d, g.fid)] == OpRecord(RECV, Some(g.body), None, None)
    && exists j :: 0 <= j < |SentTo(s, d, t)| && TakenBy(SentTo(s, d, t)[j], g)
  }

  ghost predicate SentAs(all: seq<Sent>, m: string) {
    exists j :: 0 <= j < |all| && all[j].id == m
  }

  ghost predicate MailboxInv(s: State, d: Id, t: string) {
    && (forall j :: 0 <= j < |SentTo(s, d, t)| ==> Stored(s, d, t, j) || Taken(s, d, t, j))
    && (forall i :: 0 <= i < |GotBy(s, d, t)| ==> Delivered(s, d, t, i))
    && (forall m :: Addressed(s.db, m, d, t) ==> SentAs(SentTo(s, d, t), m))
  }

  /** No `recv` checkpoint holds two messages, and no message is in two. */
  ghost predicate OneMessagePerRecv(got: map<(Id, string), seq<Got>>) {
    forall b, b', i, j ::
      b in got && b' in got && 0 <= i < |got[b]| && 0 <= j < |got[b']| && (b, i) != (b', j) ==>
        got[b][i].id != got[b'][j].id && (b.0 == b'.0 ==> got[b][i].fid != got[b'][j].fid)
  }

  /** Mailboxes do not share message ids. */
  ghost predicate IdsUnique(sent: map<(Id, string), seq<Sent>>) {
    forall b, b', i, j ::
      (b in sent && b' in sent && 0 <= i < |sent[b]| && 0 <= j < |sent[b']| && sent[b][i].id == sent[b'][j].id)
      ==> b == b' && i == j
  }

  ghost predicate MailInv(s: State) {
    && (forall d, t :: MailboxInv(s, d, t))
    && OneMessagePerRecv(s.got) && IdsUnique(s.sent)
  }

  /** What a trace of `w` received on `t` is what its mailbox delivered. */
  ghost predicate ReceivedOk(code: Code, s: State, w: Id, t: string) {
    ReceivedIn(code, w, Log(s, w), t) == Bodies(GotBy(s, w, t))
  }

  /** What a trace of `w` sent to `(d, t)` is what that mailbox got from it. */
  ghost predicate SentOk(code: Code, s: State, w: Id, d: Id, t: string) {
    From(SentTo(s, d, t), w) == SentIn(code, w, Log(s, w), d, t)
  }

  ghost predicate TraceMail(code: Code, s: State, w: Id) {
    && (forall t :: ReceivedOk(code, s, w, t))
    && (forall d, t :: SentOk(code, s, w, d, t))
  }

  // ----- preservation -----

  /** Neither messages nor what was sent and received have changed, and no checkpoint is lost. */
  ghost predicate QuietMail(s: State, s': State) {
    s'.db.notes == s.db.notes && s'.sent == s.sent && s'.got == s.got && OpsKept(s, s')
  }

  lemma OtherMovesAreQuiet(code: Code, s: State, s': State, wf: Id, m: Move)
    requires WorkflowStep(code, s, s', wf, m) && !m.SendM? && !m.RecvM?
    ensures QuietMail(s, s')
  {
    MoveKeepsOps(code, s, s', wf, m);
  }

  /** A mailbox is unaffected when its own messages and the checkpoints are kept. */
  lemma SameMailbox(s: State, s': State, d: Id, t: string)
    requires MailboxInv(s, d, t) && OpsKept(s, s')
    requires SentTo(s', d, t) == SentTo(s, d, t) && GotBy(s', d, t) == GotBy(s, d, t)
    requires forall m :: Addressed(s'.db, m, d, t) ==> Addressed(s.db, m, d, t)
    requires forall m :: Addressed(s.db, m, d, t) ==> m in s'.db.notes && s'.db.notes[m] == s.db.notes[m]
    requires forall i :: 0 <= i < |GotBy(s, d, t)| ==> GotBy(s, d, t)[i].id !in s'.db.notes
    ensures MailboxInv(s', d, t)
  {
    forall i | 0 <= i < |GotBy(s, d, t)|
      ensures Delivered(s', d, t, i)
    {
      assert Delivered(s, d, t, i);
    }
    forall j | 0 <= j < |SentTo(s, d, t)|
      ensures Stored(s', d, t, j) || Taken(s', d, t, j)
    {
      assert Stored(s, d, t, j) || Taken(s, d, t, j);
    }
  }

  lemma StillDelivered(s: State, d: Id, t: string)
    requires MailboxInv(s, d, t)
    ensures forall i :: 0 <= i < |GotBy(s, d, t)| ==> GotBy(s, d, t)[i].id !in s.db.notes
  {
    forall i | 0 <= i < |GotBy(s, d, t)|
      ensures GotBy(s, d, t)[i].id !in s.db.notes
    {
      assert Delivered(s, d, t, i);
    }
  }

  lemma QuietKeepsMail(s: State, s': State)
    requires MailInv(s) && QuietMail(s, s')
    ensures MailInv(s')
  {
    forall d, t
      ensures MailboxInv(s', d, t)
    {
      assert MailboxInv(s, d, t);
      StillDelivered(s, d, t);
      SameMailbox(s, s', d, t);
    }
  }

  lemma SendToMailbox(s: State, s': State, d: Id, t: string, id: string, wf: Id, body: Value, now: int)
    requires MailboxInv(s, d, t) && OpsKept(s, s')
    requires id !in s.db.notes && s'.db.notes == s.db.notes[id := Note(d, t, body, now)]
    requires SentTo(s', d, t) == SentTo(s, d, t) + [Sent(id, wf, body)] && GotBy(s', d, t) == GotBy(s, d, t)
    requires forall i :: 0 <= i < |GotBy(s, d, t)| ==> GotBy(s, d, t)[i].id != id
    ensures MailboxInv(s', d, t)
  {
    var all, all' := SentTo(s, d, t), SentTo(s', d, t);
    forall i | 0 <= i < |GotBy(s, d, t)|
      ensures Delivered(s', d, t, i)
    {
      assert Delivered(s, d, t, i);
      var j :| 0 <= j < |all| && TakenBy(all[j], GotBy(s, d, t)[i]);
      assert all'[j] == all[j];
    }
    forall j | 0 <= j < |all'|
      ensures Stored(s', d, t, j) || Taken(s', d, t, j)
    {
      assert j < |all| ==> Stored(s, d, t, j) || Taken(s, d, t, j);
    }
    forall m | Addressed(s'.db, m, d, t)
      ensures SentAs(all', m)
    {
      if m == id {
        assert all'[|all|].id == m;
      } else {
        assert Addressed(s.db, m, d, t);
        var j :| 0 <= j < |all| && all[j].id == m;
        assert all'[j].id == m;
      }
    }
  }

  lemma SendKeepsMail(code: Code, s: State, s': State, wf: Id, id: string, now: int, x: Option<string>, acked: bool)
    requires MailInv(s) && DoSend(code, s, s', wf, id, now, x, acked)
    ensures MailInv(s')
  {
    var a := Next(code, s, wf);
    MoveKeepsOps(code, s, s', wf, SendM(id, now, x, acked));
    forall d, t
      ensures MailboxInv(s', d, t)
    {
      assert MailboxInv(s, d, t);
      NewIdIsNew(s, d, t, id);
      if d == a.dest && t == a.topic {
        SendToMailbox(s, s', d, t, id, wf, a.body, now);
      } else {
        SameMailbox(s, s', d, t);
      }
    }
  }

  lemma NewIdIsNew(s: State, d: Id, t: string, id: string)
    requires MailboxInv(s, d, t) && Unused(s, id)
    ensures forall i :: 0 <= i < |GotBy(s, d, t)| ==> GotBy(s, d, t)[i].id != id && GotBy(s, d, t)[i].id !in s.db.notes
  {
    forall i | 0 <= i < |GotBy(s, d, t)|
      ensures GotBy(s, d, t)[i].id != id && GotBy(s, d, t)[i].id !in s.db.notes
    {
      assert Delivered(s, d, t, i);
      var j :| 0 <= j < |SentTo(s, d, t)| && TakenBy(SentTo(s, d, t)[j], GotBy(s, d, t)[i]);
      assert (d, t) in s.sent && s.sent[(d, t)][j].id != id;
    }
  }

  /** A message that is stored is one of those sent, and not yet taken. */
  lemma StoredIsSent(s: State, d: Id, t: string, id: string) returns (j: nat)
    requires MailboxInv(s, d, t) && Addressed(s.db, id, d, t)
    ensures j < |SentTo(s, d, t)| && SentTo(s, d, t)[j].id == id && SentTo(s, d, t)[j].body == s.db.notes[id].body
  {
    assert SentAs(SentTo(s, d, t), id);
    j :| 0 <= j < |SentTo(s, d, t)| && SentTo(s, d, t)[j].id == id;
    StillDelivered(s, d, t);
    assert Stored(s, d, t, j) || Taken(s, d, t, j);
  }

  lemma DeliverFromMailbox(s: State, s': State, d: Id, t: string, id: string, f: nat)
    requires MailboxInv(s, d, t) && OpsKept(s, s') && Addressed(s.db, id, d, t)
    requires IdsUnique(s.sent)
    requires s'.db.notes == s.db.notes - {id}
    requires (d, f) in s'.db.ops && s'.db.ops[(d, f)] == OpRecord(RECV, Some(s.db.notes[id].body), None, None)
    requires SentTo(s', d, t) == SentTo(s, d, t)
    requires GotBy(s', d, t) == GotBy(s, d, t) + [Got(id, f, s.db.notes[id].body)]
    ensures MailboxInv(s', d, t)
  {
    var all, got, got' := SentTo(s, d, t), GotBy(s, d, t), GotBy(s', d, t);
    var k := StoredIsSent(s, d, t, id);
    assert TakenBy(all[k], got'[|got|]);
    forall i | 0 <= i < |got'|
      ensures Delivered(s', d, t, i)
    {
      if i < |got| {
        assert Delivered(s, d, t, i);
      }
    }
    forall j | 0 <= j < |all|
      ensures Stored(s', d, t, j) || Taken(s', d, t, j)
    {
      StoredOrTakenNow(s, s', d, t, id, f, j, k);
    }
    forall m | Addressed(s'.db, m, d, t)
      ensures SentAs(all, m)
    {
      assert Addressed(s.db, m, d, t);
    }
  }

  lemma StoredOrTakenNow(s: State, s': State, d: Id, t: string, id: string, f: nat, j: nat, k: nat)
    requires j < |SentTo(s, d, t)| && k < |SentTo(s, d, t)| && (Stored(s, d, t, j) || Taken(s, d, t, j))
    requires SentTo(s, d, t)[k].id == id && id in s.db.notes && SentTo(s, d, t)[k].body == s.db.notes[id].body
    requires IdsUnique(s.sent) && SentTo(s', d, t) == SentTo(s, d, t)
    requires s'.db.notes == s.db.notes - {id}
    requires GotBy(s', d, t) == GotBy(s, d, t) + [Got(id, f, s.db.notes[id].body)]
    ensures Stored(s', d, t, j) || Taken(s', d, t, j)
  {
    var all, got, got' := SentTo(s, d, t), GotBy(s, d, t), GotBy(s', d, t);
    if j == k {
      assert TakenBy(all[k], got'[|got|]);
    } else if Taken(s, d, t, j) {
      var i :| 0 <= i < |got| && TakenBy(all[j], got[i]);
      assert got'[i] == got[i];
    } else {
      assert (d, t) in s.sent && all[j].id != all[k].id;
    }
  }

  lemma RecvKeepsMailbox(code: Code, s: State, s': State, wf: Id, id: string, x: Option<string>, acked: bool, d: Id,
                         t: string)
    requires MailboxInv(s, d, t) && IdsUnique(s.sent) && OpsKept(s, s')
    requires RunningInv(s, wf) && DoRecv(code, s, s', wf, id, x, acked)
    ensures MailboxInv(s', d, t)
  {
    if d == wf && t == Next(code, s, wf).topic {
      DeliverFromMailbox(s, s', d, t, id, s.live[wf].phase.f);
    } else {
      StillDelivered(s, d, t);
      SameMailbox(s, s', d, t);
    }
  }

  lemma RecvKeepsMail(code: Code, s: State, s': State, wf: Id, id: string, x: Option<string>, acked: bool)
    requires MailInv(s) && RunningInv(s, wf) && DoRecv(code, s, s', wf, id, x, acked)
    ensures MailInv(s')
  {
    MoveKeepsOps(code, s, s', wf, RecvM(id, x, acked));
    forall d, t
      ensures MailboxInv(s', d, t)
    {
      assert MailboxInv(s, d, t);
      RecvKeepsMailbox(code, s, s', wf, id, x, acked, d, t);
    }
    forall b, i | b in s.got && 0 <= i < |s.got[b]|
      ensures (b.0, s.got[b][i].fid) in s.db.ops && s.got[b][i].id !in s.db.notes
    {
      assert MailboxInv(s, b.0, b.1);
      assert Delivered(s, b.0, b.1, i);
    }
  }

  lemma MoveKeepsMail(code: Code, s: State, s': State, wf: Id, m: Move)
    requires MailInv(s) && RunningInv(s, wf) && WorkflowStep(code, s, s', wf, m)
    ensures MailInv(s')
  {
    if m.SendM? {
      SendKeepsMail(code, s, s', wf, m.id, m.now, m.executor, m.acked);
    } else if m.RecvM? {
      RecvKeepsMail(code, s, s', wf, m.id, m.executor, m.acked);
    } else {
      OtherMovesAreQuiet(code, s, s', wf, m);
      QuietKeepsMail(s, s');
    }
  }

  // ----- traces and mailboxes agree -----

  lemma FromSnoc(all: seq<Sent>, x: Sent, wf: Id)
    ensures From(all + [x], wf) == From(all, wf) + if x.from == wf then [x.body] else []
  {
  }

  /** The log grows by nothing, or by the result of an operation that is no send or receive. */
  ghost predicate LogGrowsQuietly(code: Code, wf: Id, h: seq<Res>, h': seq<Res>) {
    h' == h || exists res :: h' == h + [res] && !code(wf, h).Send? && !code(wf, h).Recv?
  }

  lemma RecordStepGrowsLog(code: Code, s: State, s': State, wf: Id, x: Option<string>, acked: bool)
    requires ReplayInv(code, s, wf) && RecordStep(code, s, s', wf, x, acked)
    ensures LogGrowsQuietly(code, wf, Log(s, wf), Log(s', wf))
  {
    var h, e := Log(s, wf), s.live[wf];
    if (wf, e.phase.f) !in s.db.ops {
      LookupInLog(code, wf, h, s.db.ops, |e.hist|);
      assert h[..|e.hist|] == e.hist;
      assert Log(s', wf) == h + [e.phase.res];
    }
  }

  lemma LogOfMove(code: Code, s: State, s': State, wf: Id, m: Move)
    requires ReplayInv(code, s, wf) && WorkflowStep(code, s, s', wf, m)
    requires !m.SendM? && !m.RecvM?
    ensures LogGrowsQuietly(code, wf, Log(s, wf), Log(s', wf))
  {
    if m.RecordStepM? {
      RecordStepGrowsLog(code, s, s', wf, m.executor, m.acked);
    } else if m.SetEventM? || m.WriteStreamM? {
      FreshAtEnd(code, s, wf);
      assert Log(s', wf) == Log(s, wf) + [Unit];
    }
  }

  lemma SameTraceMail(code: Code, s: State, s': State, w: Id)
    requires TraceMail(code, s, w) && s'.sent == s.sent && s'.got == s.got
    requires LogGrowsQuietly(code, w, Log(s, w), Log(s', w))
    ensures TraceMail(code, s', w)
  {
    if Log(s', w) != Log(s, w) {
      var res :| Log(s', w) == Log(s, w) + [res];
      TraceSnoc(code, w, Log(s, w), res);
    }
    forall t
      ensures ReceivedOk(code, s', w, t)
    {
      assert ReceivedOk(code, s, w, t);
    }
    forall d, t
      ensures SentOk(code, s', w, d, t)
    {
      assert SentOk(code, s, w, d, t);
    }
  }

  lemma SendTraceMail(code: Code, s: State, s': State, wf: Id, id: string, now: int, x: Option<string>, acked: bool,
                      w: Id)
    requires TraceMail(code, s, w) && DoSend(code, s, s', wf, id, now, x, acked)
    requires w == wf ==> s.live[w].hist == Log(s, w)
    ensures TraceMail(code, s', w)
  {
    var a := Next(code, s, wf);
    assert Log(s', w) == if w == wf then Log(s, w) + [Unit] else Log(s, w);
    TraceSnoc(code, w, Log(s, w), Unit);
    forall t
      ensures ReceivedOk(code, s', w, t)
    {
      assert ReceivedOk(code, s, w, t);
    }
    forall d, t
      ensures SentOk(code, s', w, d, t)
    {
      assert SentOk(code, s, w, d, t);
      if d == a.dest && t == a.topic {
        FromSnoc(SentTo(s, d, t), Sent(id, wf, a.body), w);
      }
    }
  }

  /** The log of `wf` and its mailbox on `t` both grow by what one receive took. */
  ghost predicate ReceivesOne(code: Code, s: State, s': State, wf: Id, t: string, g: Got) {
    && code(wf, Log(s, wf)) == Recv(t) && Log(s', wf) == Log(s, wf) + [Returned(g.body)]
    && s'.sent == s.sent && s'.got == s.got[(wf, t) := GotBy(s, wf, t) + [g]]
  }

  lemma RecvReceivesOne(code: Code, s: State, s': State, wf: Id, id: string, x: Option<string>, acked: bool)
    requires DoRecv(code, s, s', wf, id, x, acked) && s.live[wf].hist == Log(s, wf)
    ensures ReceivesOne(code, s, s', wf, Next(code, s, wf).topic, Got(id, s.live[wf].phase.f, s.db.notes[id].body))
  {
  }

  lemma ReceivedOneTraceMail(code: Code, s: State, s': State, wf: Id, topic: string, g: Got)
    requires TraceMail(code, s, wf) && ReceivesOne(code, s, s', wf, topic, g)
    ensures TraceMail(code, s', wf)
  {
    TraceSnoc(code, wf, Log(s, wf), Returned(g.body));
    forall t
      ensures ReceivedOk(code, s', wf, t)
    {
      assert ReceivedOk(code, s, wf, t);
      BodiesSnoc(GotBy(s, wf, t), g);
    }
    forall d, t
      ensures SentOk(code, s', wf, d, t)
    {
      assert SentOk(code, s, wf, d, t);
    }
  }

  lemma RecvOwnTraceMail(code: Code, s: State, s': State, wf: Id, id: string, x: Option<string>, acked: bool)
    requires TraceMail(code, s, wf) && DoRecv(code, s, s', wf, id, x, acked)
    requires s.live[wf].hist == Log(s, wf)
    ensures TraceMail(code, s', wf)
  {
    RecvReceivesOne(code, s, s', wf, id, x, acked);
    var g := Got(id, s.live[wf].phase.f, s.db.notes[id].body);
    ReceivedOneTraceMail(code, s, s', wf, Next(code, s, wf).topic, g);
  }

  lemma RecvOtherTraceMail(code: Code, s: State, s': State, wf: Id, id: string, x: Option<string>, acked: bool, w: Id)
    requires TraceMail(code, s, w) && DoRecv(code, s, s', wf, id, x, acked) && w != wf
    ensures TraceMail(code, s', w)
  {
    assert Log(s', w) == Log(s, w) && s'.sent == s.sent;
    forall t
      ensures ReceivedOk(code, s', w, t)
    {
      assert ReceivedOk(code, s, w, t) && GotBy(s', w, t) == GotBy(s, w, t);
    }
    forall d, t
      ensures SentOk(code, s', w, d, t)
    {
      assert SentOk(code, s, w, d, t);
    }
  }

  lemma BodiesSnoc(got: seq<Got>, g: Got)
    ensures Bodies(got + [g]) == Bodies(got) + [g.body]
  {
  }

  /** An operation that commits stands at the end of its workflow's log. */
  lemma LiveAtEnd(code: Code, s: State, s': State, wf: Id, m: Move)
    requires ReplayInv(code, s, wf) && WorkflowStep(code, s, s', wf, m) && (m.SendM? || m.RecvM?)
    ensures wf in s.live && s.live[wf].hist == Log(s, wf)
  {
    if m.SendM? {
      FreshAtEnd(code, s, wf);
    }
  }

  lemma OwnTraceMail(code: Code, s: State, s': State, wf: Id, m: Move)
    requires TraceMail(code, s, wf) && ReplayInv(code, s, wf) && WorkflowStep(code, s, s', wf, m)
    ensures TraceMail(code, s', wf)
  {
    if m.SendM? {
      LiveAtEnd(code, s, s', wf, m);
      SendTraceMail(code, s, s', wf, m.id, m.now, m.executor, m.acked, wf);
    } else if m.RecvM? {
      LiveAtEnd(code, s, s', wf, m);
      RecvOwnTraceMail(code, s, s', wf, m.id, m.executor, m.acked);
    } else {
      OtherMovesAreQuiet(code, s, s', wf, m);
      LogOfMove(code, s, s', wf, m);
      SameTraceMail(code, s, s', wf);
    }
  }

  lemma OthersTraceMail(code: Code, s: State, s': State, wf: Id, m: Move, w: Id)
    requires TraceMail(code, s, w) && WorkflowStep(code, s, s', wf, m) && w != wf
    ensures TraceMail(code, s', w)
  {
    if m.SendM? {
      SendTraceMail(code, s, s', wf, m.id, m.now, m.executor, m.acked, w);
    } else if m.RecvM? {
      RecvOtherTraceMail(code, s, s', wf, m.id, m.executor, m.acked, w);
    } else {
      OtherMovesAreQuiet(code, s, s', wf, m);
      LogElsewhere(code, s, s', wf, m, w);
      SameTraceMail(code, s, s', w);
    }
  }

  // ----- main results -----

  ghost predicate MessagesInv(code: Code, s: State) {
    && KernelInv(code, s) && MailInv(s)
    && forall w :: w !in s.unlogged ==> TraceMail(code, s, w)
  }

  lemma StatusKeepsMail(code: Code, s: State, s': State)
    requires MessagesInv(code, s) && StatusStep(code, s, s')
    ensures MailInv(s') && forall w :: w !in s'.unlogged ==> TraceMail(code, s', w)
  {
    QuietKeepsMail(s, s');
    forall w | w !in s'.unlogged
      ensures TraceMail(code, s', w)
    {
      SameTraceMail(code, s, s', w);
    }
  }

  lemma StepKeepsMessagesInv(code: Code, s: State, s': State)
    requires MessagesInv(code, s) && Step(code, s, s')
    ensures MessagesInv(code, s')
  {
    StepKeepsKernelInv(code, s, s');
    if StatusStep(code, s, s') {
      StatusKeepsMail(code, s, s');
    } else {
      var wf, m :| WorkflowStep(code, s, s', wf, m);
      assert RunningInv(s, wf);
      MoveKeepsMail(code, s, s', wf, m);
      UnloggedGrows(code, s, s', wf, m);
      forall w | w !in s'.unlogged
        ensures TraceMail(code, s', w)
      {
        assert ReplayInv(code, s, w);
        if w == wf {
          OwnTraceMail(code, s, s', wf, m);
        } else {
          OthersTraceMail(code, s, s', wf, m, w);
        }
      }
    }
  }

  lemma {:induction false} RunKeepsMessagesInv(code: Code, run: seq<State>, i: nat)
    requires Run(code, run) && i < |run|
    ensures MessagesInv(code, run[i])
  {
    RunKeepsKernelInv(code, run, i);
    if i > 0 {
      RunKeepsMessagesInv(code, run, i - 1);
      assert StepAt(code, run, i - 1);
      StepKeepsMessagesInv(code, run[i - 1], run[i]);
    } else {
      forall d, t
        ensures MailboxInv(run[0], d, t)
      {
        assert SentTo(run[0], d, t) == [] && GotBy(run[0], d, t) == [];
      }
      forall w
        ensures TraceMail(code, run[0], w)
      {
        assert Log(run[0], w) == [] && Bodies([]) == [];
        assert forall d, t :: SentOk(code, run[0], w, d, t);
        assert forall t :: ReceivedOk(code, run[0], w, t);
      }
    }
  }

  /** The checkpoint of receive `i` of `(d, t)` holds message `msg`, and no other receive of that
      workflow, on any topic, holds it or shares the checkpoint. */
  ghost predicate InOneRecv(s: State, d: Id, t: string, msg: Sent, i: nat) {
    && i < |GotBy(s, d, t)| && GotBy(s, d, t)[i].id == msg.id
    && (d, GotBy(s, d, t)[i].fid) in s.db.ops
    && s.db.ops[(d, GotBy(s, d, t)[i].fid)] == OpRecord(RECV, Some(msg.body), None, None)
    && forall t', k :: 0 <= k < |GotBy(s, d, t')| && (t', k) != (t, i as int) ==>
         GotBy(s, d, t')[k].id != msg.id && GotBy(s, d, t')[k].fid != GotBy(s, d, t)[i].fid
  }

  ghost predicate InNoRecv(s: State, d: Id, msg: Sent) {
    forall t', k :: 0 <= k < |GotBy(s, d, t')| ==> GotBy(s, d, t')[k].id != msg.id
  }

  /** Exactly once, whatever timestamps messages get, ties included. In every reachable state each
      message ever sent is either still stored, and in no receive's checkpoint, or no longer
      stored and in exactly one. */
  lemma StoredOrDeliveredOnce(code: Code, run: seq<State>, i: nat, d: Id, t: string, j: nat)
    requires Run(code, run) && i < |run| && j < |SentTo(run[i], d, t)|
    ensures var s, msg := run[i], SentTo(run[i], d, t)[j];
            if msg.id in s.db.notes then
              Addressed(s.db, msg.id, d, t) && s.db.notes[msg.id].body == msg.body && InNoRecv(s, d, msg)
            else
              exists k :: InOneRecv(s, d, t, msg, k)
  {
    RunKeepsMessagesInv(code, run, i);
    var s, msg := run[i], SentTo(run[i], d, t)[j];
    assert MailboxInv(s, d, t);
    assert Stored(s, d, t, j) || Taken(s, d, t, j);
    if msg.id in s.db.notes {
      forall t', k | 0 <= k < |GotBy(s, d, t')|
        ensures GotBy(s, d, t')[k].id != msg.id
      {
        assert MailboxInv(s, d, t');
        assert Delivered(s, d, t', k);
      }
      StillDelivered(s, d, t);
    } else {
      var k :| 0 <= k < |GotBy(s, d, t)| && TakenBy(msg, GotBy(s, d, t)[k]);
      assert Delivered(s, d, t, k);
      assert InOneRecv(s, d, t, msg, k);
    }
  }

  /** Each operation once. Every send of a trace put exactly one message in its mailbox, and the
      messages a trace received on a topic are, in order, those taken from the mailbox. */
  lemma TraceSendsAndReceivesOnce(code: Code, run: seq<State>, i: nat, wf: Id, h: seq<Res>)
    requires Run(code, run) && i < |run| && wf !in run[i].unlogged && IsTrace(code, wf, h, run[i].db.ops)
    ensures forall d, t :: From(SentTo(run[i], d, t), wf) == SentIn(code, wf, h, d, t)
    ensures forall t :: ReceivedIn(code, wf, h, t) == Bodies(GotBy(run[i], wf, t))
  {
    RunKeepsMessagesInv(code, run, i);
    assert ReplayInv(code, run[i], wf) && TraceMail(code, run[i], wf);
    TraceUnique(code, wf, h, Log(run[i], wf), run[i].db.ops);
    forall d, t
      ensures From(SentTo(run[i], d, t), wf) == SentIn(code, wf, h, d, t)
    {
      assert SentOk(code, run[i], wf, d, t);
    }
    forall t
      ensures ReceivedIn(code, wf, h, t) == Bodies(GotBy(run[i], wf, t))
    {
      assert ReceivedOk(code, run[i], wf, t);
    }
  }
}
