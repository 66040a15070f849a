/** Garbage collection of both databases. A collector chooses a cutoff, deletes from the system
    database and then, in a later transaction, from the application database; anything else may
    commit in between. */
module GarbageCollection {
  import opened SystemTables
  import opened WorkflowRows
  import opened Lifecycle

  type TxKey = (Id, nat)

  datatype CollectError = NegativeOffset

  // ----- the cutoff -----

  function Since(st: StatusTable, t: int): set<Id> {
    set id | id in st && st[id].createdAt >= t
  }

  function After(st: StatusTable, t: int): set<Id> {
    set id | id in st && st[id].createdAt > t
  }

  /** `t` is the creation time of the n-th newest row. */
  ghost predicate NthNewest(st: StatusTable, n: int, t: int) {
    && (exists id :: id in st && st[id].createdAt == t)
    && |After(st, t)| < n <= |Since(st, t)|
  }

  /** OFFSET is the threshold less one. A negative offset counts as none in SQLite; Postgres
      refuses it. */
  function NthOf(threshold: int): int {
    Max(1, threshold)
  }

  /** The later of the cutoff given and the creation time of the `threshold`-th newest row. */
  ghost predicate EffectiveCutoff(st: StatusTable, cutoff: Option<int>, threshold: Option<int>, c: int) {
    if threshold.Some? && |st| >= NthOf(threshold.value) then
      exists t :: NthNewest(st, NthOf(threshold.value), t) && c == (if cutoff.Some? then Max(cutoff.value, t) else t)
    else cutoff == Some(c)
  }

  lemma AtMost(a: set<Id>, b: set<Id>)
    requires a <= b
    ensures |a| <= |b|
  {
    assert b == a + (b - a);
  }

  lemma NthNewestUnique(st: StatusTable, n: int, t: int, u: int)
    requires NthNewest(st, n, t) && NthNewest(st, n, u)
    ensures t == u
  {
    if t < u {
      AtMost(Since(st, u), After(st, t));
    } else if u < t {
      AtMost(Since(st, t), After(st, u));
    }
  }

  /** Given a threshold only, collection leaves at least that many workflows, and fewer than that
      many of those it leaves are newer than the cutoff. */
  lemma ThresholdRowsSurvive(st: StatusTable, n: int, c: int)
    requires |st| >= 1 && |st| >= n && EffectiveCutoff(st, None, Some(n), c)
    ensures |CollectBefore(st, c)| >= n
    ensures |After(CollectBefore(st, c), c)| < if n < 1 then 1 else n
    ensures Since(CollectBefore(st, c), c) == Since(st, c)
  {
    var kept := CollectBefore(st, c);
    AtMost(Since(st, c), kept.Keys);
    assert |kept| == |kept.Keys|;
    assert After(kept, c) == After(st, c);
  }

  /** With a threshold `n`, whatever the cutoff given: fewer than `n` workflows are newer than the
      cutoff `c` taken, which is the one given or leaves `n` workflows not older, and is not
      earlier than the one given. A threshold below one counts as one. */
  ghost predicate MeetsThreshold(st: StatusTable, cutoff: Option<int>, n: int, c: int) {
    && |After(st, c)| < (if n < 1 then 1 else n)
    && (cutoff == Some(c) || (|Since(st, c)| >= 1 && |Since(st, c)| >= n))
    && (cutoff.Some? ==> c >= cutoff.value)
  }

  lemma CutoffMeetsThreshold(st: StatusTable, cutoff: Option<int>, n: int, c: int)
    requires |st| >= 1 && |st| >= n && EffectiveCutoff(st, cutoff, Some(n), c)
    ensures MeetsThreshold(st, cutoff, n, c)
  {
    var t :| NthNewest(st, NthOf(n), t) && c == (if cutoff.Some? then Max(cutoff.value, t) else t);
    AtMost(After(st, c), After(st, t));
  }

  /** The n-th newest creation time: n - 1 times, the newest row left is set aside. */
  method FindNthNewest(st: StatusTable, n: int) returns (r: Option<int>)
    requires n >= 1
    ensures r.None? <==> |st| < n
    ensures r.Some? ==> NthNewest(st, n, r.value)
  {
    if |st| < n {
      return None;
    }
    assert |st.Keys| == |st|;
    var rest := st.Keys;
    ghost var aside: set<Id> := {};
    var k := 1;
    var newest := FindNewest(st, rest);
    while k < n
      invariant 1 <= k <= n && |aside| == k - 1
      invariant aside + rest == st.Keys && aside !! rest
      invariant newest in rest
      invariant forall id :: id in rest ==> st[id].createdAt <= st[newest].createdAt
      invariant forall a, id :: a in aside && id in rest ==> st[a].createdAt >= st[id].createdAt
    {
      aside, rest := aside + {newest}, rest - {newest};
      assert |aside + rest| == |aside| + |rest|;
      newest := FindNewest(st, rest);
      k := k + 1;
    }
    var t := st[newest].createdAt;
    AtMost(After(st, t), aside);
    AtMost(aside + {newest}, Since(st, t));
    r := Some(t);
  }

  method FindNewest(st: StatusTable, rows: set<Id>) returns (newest: Id)
    requires rows != {} && rows <= st.Keys
    ensures newest in rows
    ensures forall id :: id in rows ==> st[id].createdAt <= st[newest].createdAt
  {
    newest :| newest in rows;
    var todo := rows;
    while todo != {}
      invariant todo <= rows && newest in rows
      invariant forall id :: id in rows && id !in todo ==> st[id].createdAt <= st[newest].createdAt
    {
      var id :| id in todo;
      if st[id].createdAt > st[newest].createdAt {
        newest := id;
      }
      todo := todo - {id};
    }
  }

  // ----- the two deletions -----

  /** What a collection up to `c` leaves: the workflows created at `c` or later and those enqueued or
      pending, as they were, and no other. */
  ghost predicate CollectedUpTo(before: StatusTable, after: StatusTable, c: int) {
    && (forall id :: id in after <==> id in before && (before[id].createdAt >= c || before[id].status.Enqueued?
                                                       || before[id].status.Pending?))
    && forall id :: id in after ==> after[id] == before[id]
  }

  /** The workflows older than `c` that a collection up to `c` has to leave. */
  ghost predicate LeftBehind(before: StatusTable, ids: set<Id>, c: int) {
    forall id :: id in ids <==>
      id in before && before[id].createdAt < c && (before[id].status.Enqueued? || before[id].status.Pending?)
  }

  /** Deleting workflows deletes what the foreign keys hang on them. */
  function Cascade(db: Db, st: StatusTable): Db {
    Db(st,
       map k | k in db.ops && k.0 in st :: db.ops[k],
       map m | m in db.notes && db.notes[m].dest in st :: db.notes[m],
       map k | k in db.events && k.0 in st :: db.events[k],
       map k | k in db.history && k.0 in st :: db.history[k],
       map k | k in db.streams && k.0 in st :: db.streams[k])
  }

  /** Nothing of a surviving workflow goes, and nothing of a deleted one stays. */
  lemma SurvivorsKeepRows(db: Db, st: StatusTable, wf: Id)
    ensures var db' := Cascade(db, st);
            if wf in st then
              && (forall f :: (wf, f) in db.ops ==> (wf, f) in db'.ops && db'.ops[(wf, f)] == db.ops[(wf, f)])
              && (forall m :: m in db.notes && db.notes[m].dest == wf ==> m in db'.notes && db'.notes[m] == db.notes[m])
              && (forall k :: (wf, k) in db.events ==>
                    (wf, k) in db'.events && db'.events[(wf, k)] == db.events[(wf, k)])
              && (forall k, f :: (wf, k, f) in db.history ==>
                    (wf, k, f) in db'.history && db'.history[(wf, k, f)] == db.history[(wf, k, f)])
              && (forall k, o :: (wf, k, o) in db.streams ==>
                    (wf, k, o) in db'.streams && db'.streams[(wf, k, o)] == db.streams[(wf, k, o)])
            else
              && (forall f :: (wf, f) !in db'.ops)
              && (forall m :: m in db'.notes ==> db'.notes[m].dest != wf)
              && (forall k :: (wf, k) !in db'.events)
              && (forall k, f :: (wf, k, f) !in db'.history)
              && (forall k, o :: (wf, k, o) !in db'.streams)
  {
  }

  /** The ids the first deletion reports: old workflows it had to leave. */
  function OldRemaining(st: StatusTable, cutoff: int): set<Id> {
    set id | id in st && st[id].createdAt < cutoff
  }

  /** The second deletion. Each transaction record is represented by its creation time. */
  function CollectTransactions(txs: map<TxKey, int>, cutoff: int, remaining: set<Id>): map<TxKey, int> {
    map k | k in txs && (txs[k] >= cutoff || k.0 in remaining) :: txs[k]
  }

  // ----- collectors at work beside everything else -----

  datatype Collector = CutoffChosen(cutoff: int) | SystemDone(cutoff: int, remaining: set<Id>)

  /** `owed` are the transaction records committed since their workflow's row was inserted:
      those a replay of the workflow relies on. */
  datatype State = State(
    status: StatusTable,
    txs: map<TxKey, int>,
    clock: int,
    collectors: map<nat, Collector>,
    owed: set<TxKey>)

  datatype Action =
    | StatusA(event: Event)
    | ClockA
    | CommitA(key: TxKey, at: int)
    | DropA(key: TxKey)
    | ChooseA(p: nat, given: Option<int>, threshold: Option<int>, cutoff: int)
    | SystemA(p: nat)
    | AppA(p: nat)
    | CrashA(p: nat)

  function Owed(owed: set<TxKey>, st: StatusTable): set<TxKey> {
    set k | k in owed && k.0 in st
  }

  /** New rows carry the present time. */
  predicate Stamped(e: Event, clock: int) {
    (e.StartE? ==> e.now == clock) && (e.ForkE? ==> e.now == clock)
  }

  /** A transaction record is not older than its workflow; it may also go with its workflow, when
      that is deleted. The cutoff given may be any, also one in the future. */
  ghost predicate Step(queues: map<string, Queue>, s: State, a: Action, s': State) {
    match a
    case StatusA(e) =>
      Stamped(e, s.clock) && Next(queues, s.status, e, s'.status)
      && s' == s.(status := s'.status, owed := Owed(s.owed, s'.status))
    case ClockA => s'.clock >= s.clock && s' == s.(clock := s'.clock)
    case CommitA(k, at) =>
      k.0 in s.status && k !in s.txs && at >= s.status[k.0].createdAt
      && s' == s.(txs := s.txs[k := at], owed := s.owed + {k})
    case DropA(k) => k.0 !in s.status && s' == s.(txs := s.txs - {k})
    case ChooseA(p, given, threshold, cutoff) =>
      p !in s.collectors && EffectiveCutoff(s.status, given, threshold, cutoff)
      && s' == s.(collectors := s.collectors[p := CutoffChosen(cutoff)])
    case SystemA(p) =>
      p in s.collectors && s.collectors[p].CutoffChosen?
      && var c := s.collectors[p].cutoff;
         var st := CollectBefore(s.status, c);
         s' == s.(status := st, owed := Owed(s.owed, st),
                  collectors := s.collectors[p := SystemDone(c, OldRemaining(st, c))])
    case AppA(p) =>
      p in s.collectors && s.collectors[p].SystemDone?
      && s' == s.(txs := CollectTransactions(s.txs, s.collectors[p].cutoff, s.collectors[p].remaining),
                  collectors := s.collectors - {p})
    case CrashA(p) => s' == s.(collectors := s.collectors - {p})
  }

  ghost predicate StepAt(queues: map<string, Queue>, states: seq<State>, actions: seq<Action>, i: nat)
    requires i < |actions| && |states| == |actions| + 1
  {
    Step(queues, states[i], actions[i], states[i + 1])
  }

  ghost predicate Run(queues: map<string, Queue>, states: seq<State>, actions: seq<Action>) {
    && |states| == |actions| + 1
    && states[0] == State(map[], map[], states[0].clock, map[], {})
    && forall i :: 0 <= i < |actions| ==> StepAt(queues, states, actions, i)
  }

  // ----- the invariant -----

  /** The system database is cleaned up to a cutoff that is not in the future. */
  predicate InPast(s: State, a: Action) {
    a.SystemA? && a.p in s.collectors ==> s.collectors[a.p].cutoff <= s.clock
  }

  ghost predicate Careful(states: seq<State>, actions: seq<Action>) {
    |states| == |actions| + 1 && forall i :: 0 <= i < |actions| ==> InPast(states[i], actions[i])
  }

  /** Rows are not in the future, nor is a cutoff the system database was cleaned up to. */
  ghost predicate PastInv(s: State) {
    && (forall id :: id in s.status ==> s.status[id].createdAt <= s.clock)
    && (forall p :: p in s.collectors && s.collectors[p].SystemDone? ==> s.collectors[p].cutoff <= s.clock)
  }

  /** Once a collector has been through the system database, every workflow older than its
      cutoff is one it reported. */
  ghost predicate Reported(s: State) {
    forall p, id :: p in s.collectors && s.collectors[p].SystemDone? && id in s.status ==>
      s.status[id].createdAt < s.collectors[p].cutoff ==> id in s.collectors[p].remaining
  }

  /** A record owed to a workflow is in the application database, and not older than it. */
  ghost predicate RecordKept(s: State, k: TxKey) {
    k.0 in s.status && k in s.txs && s.txs[k] >= s.status[k.0].createdAt
  }

  ghost predicate Inv(s: State) {
    && PastInv(s) && Reported(s)
    && forall k :: k in s.owed ==> RecordKept(s, k)
  }

  /** A transaction on the status table leaves creation times alone; a row it inserts carries
      the present time. */
  lemma CreatedAtKept(queues: map<string, Queue>, st: StatusTable, e: Event, st': StatusTable, clock: int, id: Id)
    requires Next(queues, st, e, st') && Stamped(e, clock) && id in st'
    ensures if id in st then st'[id].createdAt == st[id].createdAt else st'[id].createdAt == clock
  {
  }

  lemma StatusKeepsInv(queues: map<string, Queue>, s: State, e: Event, s': State)
    requires Inv(s) && Step(queues, s, StatusA(e), s')
    ensures Inv(s')
  {
    forall id | id in s'.status
      ensures if id in s.status then s'.status[id].createdAt == s.status[id].createdAt
              else s'.status[id].createdAt == s.clock
    {
      CreatedAtKept(queues, s.status, e, s'.status, s.clock, id);
    }
    assert forall k :: k in s'.owed ==> RecordKept(s, k);
  }

  lemma SystemKeepsInv(queues: map<string, Queue>, s: State, p: nat, s': State)
    requires Inv(s) && Step(queues, s, SystemA(p), s') && InPast(s, SystemA(p))
    ensures Inv(s')
  {
  }

  /** The application database keeps the records of every workflow still there, whatever
      committed since the system database was cleaned. */
  lemma AppKeepsInv(queues: map<string, Queue>, s: State, p: nat, s': State)
    requires Inv(s) && Step(queues, s, AppA(p), s')
    ensures Inv(s')
  {
  }

  lemma CollectorsKeepInv(queues: map<string, Queue>, s: State, a: Action, s': State)
    requires Inv(s) && Step(queues, s, a, s') && (a.ClockA? || a.ChooseA? || a.CrashA?)
    ensures Inv(s')
  {
    assert forall k :: k in s.owed ==> RecordKept(s, k);
  }

  lemma RecordsKeepInv(queues: map<string, Queue>, s: State, a: Action, s': State)
    requires Inv(s) && Step(queues, s, a, s') && (a.CommitA? || a.DropA?)
    ensures Inv(s')
  {
    assert forall k :: k in s.owed ==> RecordKept(s, k);
  }

  lemma StepKeepsInv(queues: map<string, Queue>, s: State, a: Action, s': State)
    requires Inv(s) && Step(queues, s, a, s') && InPast(s, a)
    ensures Inv(s')
  {
    match a
    case StatusA(e) => StatusKeepsInv(queues, s, e, s');
    case SystemA(p) => SystemKeepsInv(queues, s, p, s');
    case AppA(p) => AppKeepsInv(queues, s, p, s');
    case CommitA(_, _) => RecordsKeepInv(queues, s, a, s');
    case DropA(_) => RecordsKeepInv(queues, s, a, s');
    case _ => CollectorsKeepInv(queues, s, a, s');
  }

  /** From a state that satisfies the invariant, by any steps. */
  ghost predicate Continues(queues: map<string, Queue>, s: State, states: seq<State>, actions: seq<Action>) {
    && |states| == |actions| + 1 && states[0] == s
    && forall i :: 0 <= i < |actions| ==> StepAt(queues, states, actions, i)
  }

  lemma {:induction false} ContinuationKeepsInv(queues: map<string, Queue>, s: State, states: seq<State>,
                                                actions: seq<Action>, i: nat)
    requires Inv(s) && Continues(queues, s, states, actions) && Careful(states, actions) && i < |states|
    ensures Inv(states[i])
  {
    if i > 0 {
      ContinuationKeepsInv(queues, s, states, actions, i - 1);
      assert StepAt(queues, states, actions, i - 1) && InPast(states[i - 1], actions[i - 1]);
      StepKeepsInv(queues, states[i - 1], actions[i - 1], states[i]);
    }
  }

  ghost predicate OwedKept(s: State) {
    forall k :: k in s.owed ==> k in s.txs
  }

  // ----- main results -----

  /** Collection keeps replay possible: as long as no collector cleans up to a time still to come,
      in every reachable state each transaction record committed by a workflow that still has
      its row is in the application database. */
  lemma SurvivorsKeepRecords(queues: map<string, Queue>, states: seq<State>, actions: seq<Action>, i: nat)
    requires Run(queues, states, actions) && Careful(states, actions) && i < |states|
    ensures Inv(states[i]) && OwedKept(states[i])
  {
    ContinuationKeepsInv(queues, states[0], states, actions, i);
    assert forall k :: k in states[i].owed ==> RecordKept(states[i], k);
  }

  /** The effective cutoff is in the future exactly if the one given is. */
  lemma OnlyGivenCutoffIsFuture(s: State, given: Option<int>, threshold: Option<int>, cutoff: int)
    requires PastInv(s) && EffectiveCutoff(s.status, given, threshold, cutoff)
    ensures cutoff <= s.clock <==> (given.Some? ==> given.value <= s.clock)
  {
  }

  /** Whatever follows, with every other collector careful, no owed record is lost. */
  ghost predicate SafeFrom(queues: map<string, Queue>, s: State) {
    forall states: seq<State>, actions, i ::
      Continues(queues, s, states, actions) && Careful(states, actions) && 0 <= i < |states| ==> OwedKept(states[i])
  }

  /** The exact condition. When a collector has cleaned the system database, the records of the
      workflows still there are safe whatever follows if and only if its cutoff was not later
      than the clock. */
  lemma SafeIffCutoffInPast(queues: map<string, Queue>, states: seq<State>, actions: seq<Action>, p: nat, s': State)
    requires Run(queues, states, actions) && Careful(states, actions)
    requires Step(queues, states[|actions|], SystemA(p), s')
    ensures SafeFrom(queues, s') <==> states[|actions|].collectors[p].cutoff <= states[|actions|].clock
  {
    var s := states[|actions|];
    SurvivorsKeepRecords(queues, states, actions, |actions|);
    if s.collectors[p].cutoff <= s.clock {
      SystemKeepsInv(queues, s, p, s');
      forall later: seq<State>, after, i
        | Continues(queues, s', later, after) && Careful(later, after) && 0 <= i < |later|
        ensures OwedKept(later[i])
      {
        ContinuationKeepsInv(queues, s', later, after, i);
        assert forall k :: k in later[i].owed ==> RecordKept(later[i], k);
      }
    } else {
      var later, after := LosesARecord(queues, s', p);
      assert !OwedKept(later[3]);
    }
  }

  // ----- a cutoff in the future -----

  lemma {:induction false} LongerThanAll(used: set<Id>) returns (n: nat)
    ensures forall u :: u in used ==> |u| < n
    decreases |used|
  {
    n := 0;
    if used != {} {
      var u :| u in used;
      var m := LongerThanAll(used - {u});
      n := if m > |u| then m else |u| + 1;
    }
  }

  function Started(id: Id, now: int): Event {
    var req := Request(id, Pending, "f", None, None, None, None, None, 0, None, None, None, None, "");
    var c := Caller(None, false, false, None);
    StartE(req, c, now, InitWorkflow(map[], req, c, now).1)
  }

  lemma StartsNew(queues: map<string, Queue>, s: State, w: Id)
    requires w !in s.status
    ensures var e := Started(w, s.clock);
            var st := s.status[w := NewRow(e.req, e.caller, s.clock)];
            Step(queues, s, StatusA(e), s.(status := st, owed := Owed(s.owed, st)))
  {
  }

  lemma NewWorkflow(s: State) returns (w: Id)
    ensures w !in s.status && (w, 0) !in s.txs
  {
    var keys := set k | k in s.txs :: k.0;
    var n := LongerThanAll(s.status.Keys + keys);
    w := seq(n, _ => 'w');
    assert (w, 0) in s.txs ==> w in keys;
  }

  function Committed(s: State, k: TxKey): State {
    s.(txs := s.txs[k := s.clock], owed := s.owed + {k})
  }

  function Collected(s: State, p: nat): State
    requires p in s.collectors && s.collectors[p].SystemDone?
  {
    s.(txs := CollectTransactions(s.txs, s.collectors[p].cutoff, s.collectors[p].remaining),
       collectors := s.collectors - {p})
  }

  /** A workflow started after the first deletion was not reported; when the cutoff is in the
      future, the second deletion takes its record. */
  lemma NewRecordIsTaken(queues: map<string, Queue>, s: State, p: nat, w: Id)
    requires p in s.collectors && s.collectors[p].SystemDone? && s.collectors[p].cutoff > s.clock
    requires w in s.status && s.status[w].createdAt <= s.clock && w !in s.collectors[p].remaining && (w, 0) !in s.txs
    ensures Step(queues, s, CommitA((w, 0), s.clock), Committed(s, (w, 0)))
    ensures Step(queues, Committed(s, (w, 0)), AppA(p), Collected(Committed(s, (w, 0)), p))
    ensures !OwedKept(Collected(Committed(s, (w, 0)), p))
  {
    var end := Collected(Committed(s, (w, 0)), p);
    assert (w, 0) in end.owed && (w, 0) !in end.txs;
  }

  lemma LosesARecord(queues: map<string, Queue>, s: State, p: nat) returns (states: seq<State>, actions: seq<Action>)
    requires p in s.collectors && s.collectors[p].SystemDone? && s.collectors[p].cutoff > s.clock
    requires s.collectors[p].remaining <= s.status.Keys
    ensures Continues(queues, s, states, actions) && Careful(states, actions)
    ensures |states| == 4 && !OwedKept(states[3])
  {
    var w := NewWorkflow(s);
    var e := Started(w, s.clock);
    var st := s.status[w := NewRow(e.req, e.caller, s.clock)];
    var s1 := s.(status := st, owed := Owed(s.owed, st));
    StartsNew(queues, s, w);
    NewRecordIsTaken(queues, s1, p, w);
    var s2 := Committed(s1, (w, 0));
    states, actions := [s, s1, s2, Collected(s2, p)], [StatusA(e), CommitA((w, 0), s.clock), AppA(p)];
    forall i | 0 <= i < |actions|
      ensures StepAt(queues, states, actions, i)
    {
    }
  }

  /** What the second deletion takes from a workflow that is still there and was not reported:
      exactly the records before the cutoff, all older than the workflow itself. */
  lemma OnlyOlderRecordsLost(s: State, p: nat, k: TxKey)
    requires Inv(s) && p in s.collectors && s.collectors[p].SystemDone?
    requires k in s.txs && k.0 in s.status && k.0 !in s.collectors[p].remaining
    ensures k !in CollectTransactions(s.txs, s.collectors[p].cutoff, s.collectors[p].remaining)
            <==> s.txs[k] < s.collectors[p].cutoff
    ensures s.txs[k] < s.collectors[p].cutoff ==> s.txs[k] < s.status[k.0].createdAt
  {
  }
}
