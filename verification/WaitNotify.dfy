/** Waiting for a message or an event: threads register a condition under a key, look for the
    row, and wait; a listener signals the condition when the database announces a row. */
module WaitNotify {
  import opened SystemTables

  // ----- the condition dictionary -----

  /** Conditions are compared by identity only. */
  type Condition = nat

  datatype ConditionCount = ConditionCount(condition: Condition, count: int)

  type Conditions<!K> = map<K, ConditionCount>

  function SetEntry<K>(d: Conditions<K>, key: K, value: Condition): (Conditions<K>, bool, Condition) {
    if key in d then (d[key := d[key].(count := d[key].count + 1)], false, d[key].condition)
    else (d[key := ConditionCount(value, 1)], true, value)
  }

  function PopEntry<K>(d: Conditions<K>, key: K): Conditions<K> {
    if key !in d then d
    else if d[key].count == 1 then d - {key}
    else d[key := d[key].(count := d[key].count - 1)]
  }

  /** A pop undoes a set. */
  lemma PopUndoesSet<K>(d: Conditions<K>, key: K, value: Condition)
    requires key in d ==> d[key].count > 0
    ensures PopEntry(SetEntry(d, key, value).0, key) == d
  {
  }

  class ThreadSafeConditionDict {
    var entries: Conditions<string>

    constructor ()
      ensures entries == map[]
    {
      entries := map[];
    }

    method Get(key: string) returns (condition: Option<Condition>)
      ensures condition.Some? <==> key in entries
      ensures condition.Some? ==> condition.value == entries[key].condition
    {
      if key !in entries {
        return None;
      }
      condition := Some(entries[key].condition);
    }

    /** Registers one more waiter, which is to use the condition returned. */
    method Set(key: string, value: Condition) returns (added: bool, condition: Condition)
      modifies this
      ensures (entries, added, condition) == SetEntry(old(entries), key, value)
    {
      if key in entries {
        var cc := entries[key];
        cc := cc.(count := cc.count + 1);
        entries := entries[key := cc];
        return false, cc.condition;
      }
      entries := entries[key := ConditionCount(value, 1)];
      return true, value;
    }

    method Pop(key: string)
      modifies this
      ensures entries == PopEntry(old(entries), key)
    {
      if key in entries {
        var cc := entries[key];
        cc := cc.(count := cc.count - 1);
        entries := entries[key := cc];
        if cc.count == 0 {
          entries := entries - {key};
        }
      }
    }
  }

  // ----- threads, rows and the listener -----

  /** Messages and events have a dictionary and a channel each. */
  datatype Key = MessageKey(payload: string) | EventKey(payload: string)

  datatype Pc =
    | Created                       // holds its own new condition
    | Conflicted                    // recv: somebody else is registered
    | Joining                       // get_event: is to acquire the condition it found
    | Registered                    // holds its condition
    | FoundRow                      // holds its condition
    | CheckedEmpty                  // holds its condition
    | Waiting(signalled: bool)
    | Woken                         // holds its condition again
    | Released

  datatype Thread = Thread(key: Key, condition: Condition, pc: Pc)

  datatype Listener =
    | Idle
    | Got(key: Key, condition: Condition)
    | Locked(key: Key, condition: Condition)
    | Notified(condition: Condition)

  /** `rows` counts the rows under each key; `queue` are the announcements not yet handled, in
      commit order. Each call creates one condition, named after the call. */
  datatype State = State(
    dict: Conditions<Key>,
    threads: map<nat, Thread>,
    used: set<nat>,
    rows: map<Key, nat>,
    queue: seq<Key>,
    listener: Listener)

  predicate Holds(t: Thread) {
    t.pc.Created? || t.pc.Registered? || t.pc.FoundRow? || t.pc.CheckedEmpty? || t.pc.Woken?
  }

  /** Between its `set` and its `pop`. */
  predicate Counted(t: Thread) {
    !t.pc.Created?
  }

  function Rows(s: State, k: Key): nat {
    if k in s.rows then s.rows[k] else 0
  }

  ghost predicate ListenerHolds(s: State, c: Condition) {
    (s.listener.Locked? || s.listener.Notified?) && s.listener.condition == c
  }

  ghost predicate Free(s: State, c: Condition) {
    !ListenerHolds(s, c) && forall p :: p in s.threads && Holds(s.threads[p]) ==> s.threads[p].condition != c
  }

  function At(s: State, p: nat, pc: Pc): State
    requires p in s.threads
  {
    s.(threads := s.threads[p := s.threads[p].(pc := pc)])
  }

  datatype Action =
    | Start(key: Key)
    | Register
    | Join
    | Check
    | Wait
    | Wake                          // signalled or timed out
    | Abandon                       // recv: an exception before the wait
    | Release
    | Deregister

  ghost predicate Act(s: State, p: nat, a: Action, s': State) {
    match a
    case Start(k) => p !in s.used && s' == s.(threads := s.threads[p := Thread(k, p, Created)], used := s.used + {p})
    case _ => p in s.threads && ActOf(s, p, s.threads[p], a, s')
  }

  ghost predicate ActOf(s: State, p: nat, t: Thread, a: Action, s': State)
    requires p in s.threads && t == s.threads[p]
  {
    match a
    case Start(_) => false
    case Register =>
      t.pc.Created?
      && var (d, added, c) := SetEntry(s.dict, t.key, t.condition);
         var t' := if added then t.(pc := Registered)
                   else if t.key.MessageKey? then t.(pc := Conflicted)
                   else t.(pc := Joining, condition := c);
         s' == s.(dict := d, threads := s.threads[p := t'])
    case Join => t.pc.Joining? && Free(s, t.condition) && s' == At(s, p, Registered)
    case Check => t.pc.Registered? && s' == At(s, p, if Rows(s, t.key) > 0 then FoundRow else CheckedEmpty)
    case Wait => t.pc.CheckedEmpty? && s' == At(s, p, Waiting(false))
    case Wake => t.pc.Waiting? && Free(s, t.condition) && s' == At(s, p, Woken)
    case Abandon => t.key.MessageKey? && (t.pc.Registered? || t.pc.CheckedEmpty?) && s' == At(s, p, Released)
    case Release => (t.pc.FoundRow? || t.pc.Woken?) && s' == At(s, p, Released)
    case Deregister =>
      (t.pc.Released? || t.pc.Conflicted?)
      && s' == s.(dict := PopEntry(s.dict, t.key), threads := s.threads - {p})
  }

  /** A committed insert is announced on its channel. */
  predicate Insert(s: State, k: Key, s': State) {
    s' == s.(rows := s.rows[k := Rows(s, k) + 1], queue := s.queue + [k])
  }

  predicate Consume(s: State, k: Key, s': State) {
    Rows(s, k) > 0 && s' == s.(rows := s.rows[k := Rows(s, k) - 1])
  }

  function Signal(threads: map<nat, Thread>, c: Condition): map<nat, Thread> {
    map p | p in threads ::
      if threads[p].pc.Waiting? && threads[p].condition == c then threads[p].(pc := Waiting(true)) else threads[p]
  }

  ghost predicate Listen(s: State, s': State) {
    match s.listener
    case Idle =>
      s.queue != []
      && var k := s.queue[0];
         s' == s.(queue := s.queue[1..], listener := if k in s.dict then Got(k, s.dict[k].condition) else Idle)
    case Got(k, c) => Free(s, c) && s' == s.(listener := Locked(k, c))
    case Locked(k, c) => s' == s.(threads := Signal(s.threads, c), listener := Notified(c))
    case Notified(c) => s' == s.(listener := Idle)
  }

  datatype Move = ThreadM(p: nat, a: Action) | InsertM(k: Key) | ConsumeM(k: Key) | ListenM

  ghost predicate Step(s: State, m: Move, s': State) {
    match m
    case ThreadM(p, a) => Act(s, p, a, s')
    case InsertM(k) => Insert(s, k, s')
    case ConsumeM(k) => Consume(s, k, s')
    case ListenM => Listen(s, s')
  }

  ghost predicate Initial(s: State) {
    s.dict == map[] && s.threads == map[] && s.used == {} && s.queue == [] && s.listener.Idle?
  }

  ghost predicate Next(s: State, s': State) {
    exists m :: Step(s, m, s')
  }

  ghost predicate StepAt(run: seq<State>, i: nat)
    requires i + 1 < |run|
  {
    Next(run[i], run[i + 1])
  }

  ghost predicate Run(run: seq<State>) {
    && |run| > 0 && Initial(run[0])
    && forall i :: 0 <= i < |run| - 1 ==> StepAt(run, i)
  }

  // ----- the dictionary counts its users -----

  function Users(s: State, k: Key): set<nat> {
    set p | p in s.threads && s.threads[p].key == k && Counted(s.threads[p])
  }

  /** There is an entry exactly while a thread is between `set` and `pop`, and it counts them. */
  ghost predicate EntryCounts(s: State, k: Key) {
    if k in s.dict then s.dict[k].count == |Users(s, k)| && s.dict[k].count > 0
    else Users(s, k) == {}
  }

  /** Everybody registered under a key uses the condition in its entry. */
  ghost predicate UsesEntry(s: State, p: nat)
    requires p in s.threads
  {
    var t := s.threads[p];
    && (t.pc.Created? ==> t.condition == p)
    && (Counted(t) && !t.pc.Conflicted? ==> t.key in s.dict && s.dict[t.key].condition == t.condition)
  }

  ghost predicate DictInv(s: State) {
    && (forall p :: p in s.threads ==> UsesEntry(s, p))
    && (forall k :: EntryCounts(s, k))
  }

  lemma WithUser(s: State, s': State, k: Key, p: nat)
    requires p !in Users(s, k) && Users(s', k) == Users(s, k) + {p}
    ensures |Users(s', k)| == |Users(s, k)| + 1
  {
  }

  lemma RegisterAddsUser(s: State, p: nat, s': State, k: Key)
    requires Act(s, p, Register, s')
    ensures s.threads[p].key == k ==> p !in Users(s, k) && Users(s', k) == Users(s, k) + {p}
    ensures s.threads[p].key != k ==> Users(s', k) == Users(s, k)
  {
  }

  lemma RegisterKeepsCounts(s: State, p: nat, s': State, k: Key)
    requires EntryCounts(s, k) && Act(s, p, Register, s')
    ensures EntryCounts(s', k)
  {
    RegisterAddsUser(s, p, s', k);
    if s.threads[p].key == k {
      WithUser(s, s', k, p);
    }
  }

  lemma DeregisterKeepsCounts(s: State, p: nat, s': State, k: Key)
    requires EntryCounts(s, k) && Act(s, p, Deregister, s')
    ensures EntryCounts(s', k)
  {
    if s.threads[p].key == k {
      assert Users(s, k) == Users(s', k) + {p};
      WithUser(s', s, k, p);
      assert k in s.dict;
      if s.dict[k].count == 1 {
        assert |Users(s', k)| == 0;
      }
    } else {
      assert Users(s', k) == Users(s, k);
    }
  }

  predicate ChangesDict(m: Move) {
    m.ThreadM? && (m.a.Register? || m.a.Deregister?)
  }

  lemma ActKeepsUsers(s: State, q: nat, a: Action, s': State, k: Key, p: nat)
    requires Act(s, q, a, s') && !a.Register? && !a.Deregister?
    requires p in s.threads ==> p in s.used
    ensures p in Users(s', k) <==> p in Users(s, k)
  {
  }

  lemma OthersKeepUsers(s: State, m: Move, s': State, k: Key, p: nat)
    requires Step(s, m, s') && !ChangesDict(m)
    requires p in s.threads ==> p in s.used
    ensures p in Users(s', k) <==> p in Users(s, k)
  {
    if m.ThreadM? {
      ActKeepsUsers(s, m.p, m.a, s', k, p);
    }
  }

  lemma OthersKeepDict(s: State, m: Move, s': State)
    requires Step(s, m, s') && !ChangesDict(m)
    ensures s'.dict == s.dict
  {
  }

  lemma OthersKeepCounts(s: State, m: Move, s': State, k: Key)
    requires EntryCounts(s, k) && Step(s, m, s') && !ChangesDict(m)
    requires forall p :: p in s.threads ==> p in s.used
    ensures EntryCounts(s', k)
  {
    OthersKeepDict(s, m, s');
    forall p
      ensures p in Users(s', k) <==> p in Users(s, k)
    {
      OthersKeepUsers(s, m, s', k, p);
    }
    assert Users(s', k) == Users(s, k);
  }

  lemma StepKeepsCounts(s: State, m: Move, s': State, k: Key)
    requires EntryCounts(s, k) && Step(s, m, s')
    requires forall p :: p in s.threads ==> p in s.used
    ensures EntryCounts(s', k)
  {
    if !ChangesDict(m) {
      OthersKeepCounts(s, m, s', k);
    } else if m.a.Register? {
      RegisterKeepsCounts(s, m.p, s', k);
    } else {
      DeregisterKeepsCounts(s, m.p, s', k);
    }
  }

  /** An entry that somebody still uses keeps its condition. */
  lemma UsedEntryStays(s: State, m: Move, s': State, q: nat)
    requires Step(s, m, s') && q in s.threads && q in s'.threads && (m.ThreadM? ==> m.p != q)
    requires EntryCounts(s, s.threads[q].key) && Counted(s.threads[q]) && s.threads[q].key in s.dict
    ensures s.threads[q].key in s'.dict && s'.dict[s.threads[q].key].condition == s.dict[s.threads[q].key].condition
  {
    var k := s.threads[q].key;
    if m.ThreadM? && m.a.Deregister? && s.threads[m.p].key == k {
      assert {m.p, q} <= Users(s, k);
      AtLeastTwo(Users(s, k), m.p, q);
    }
  }

  lemma AtLeastTwo(users: set<nat>, p: nat, q: nat)
    requires p != q && {p, q} <= users
    ensures |users| >= 2
  {
    assert users == {p, q} + (users - {p, q});
  }

  lemma MoverUsesEntry(s: State, m: Move, s': State)
    requires Step(s, m, s') && m.ThreadM? && m.p in s'.threads
    requires m.p in s.threads ==> UsesEntry(s, m.p)
    ensures UsesEntry(s', m.p)
  {
  }

  lemma OtherUsesEntry(s: State, m: Move, s': State, q: nat)
    requires Step(s, m, s') && q in s'.threads && (m.ThreadM? ==> m.p != q)
    requires q in s.threads ==> UsesEntry(s, q) && EntryCounts(s, s.threads[q].key)
    ensures UsesEntry(s', q)
  {
    assert q in s.threads;
    assert s'.threads[q].key == s.threads[q].key && s'.threads[q].condition == s.threads[q].condition;
    if Counted(s.threads[q]) && !s.threads[q].pc.Conflicted? {
      UsedEntryStays(s, m, s', q);
    }
  }

  lemma StepKeepsDictInv(s: State, m: Move, s': State)
    requires DictInv(s) && Step(s, m, s')
    requires forall p :: p in s.threads ==> p in s.used
    ensures DictInv(s')
  {
    forall k
      ensures EntryCounts(s', k)
    {
      StepKeepsCounts(s, m, s', k);
    }
    forall q | q in s'.threads
      ensures UsesEntry(s', q)
    {
      if m.ThreadM? && m.p == q {
        MoverUsesEntry(s, m, s');
      } else {
        OtherUsesEntry(s, m, s', q);
      }
    }
  }

  // ----- one holder for each condition -----

  /** A condition never names a call that has not been made, so a new one is nobody else's. */
  ghost predicate NamesUsed(s: State) {
    && (forall p :: p in s.threads ==> p in s.used && s.threads[p].condition in s.used)
    && (forall k :: k in s.dict ==> s.dict[k].condition in s.used)
    && (!s.listener.Idle? ==> s.listener.condition in s.used)
  }

  lemma ActKeepsOwnName(s: State, p: nat, a: Action, s': State)
    requires NamesUsed(s) && Act(s, p, a, s') && p in s'.threads
    ensures p in s'.used && s'.threads[p].condition in s'.used
  {
  }

  lemma ActLeavesOthers(s: State, p: nat, a: Action, s': State, q: nat)
    requires Act(s, p, a, s') && q in s'.threads && q != p
    ensures q in s.threads && s'.threads[q] == s.threads[q] && s.used <= s'.used
  {
  }

  lemma ListenKeepsThreads(s: State, s': State, q: nat)
    requires Listen(s, s') && q in s'.threads
    ensures q in s.threads && s'.threads[q].key == s.threads[q].key && s'.threads[q].condition == s.threads[q].condition
    ensures s.used == s'.used
  {
  }

  lemma StepKeepsOtherThreads(s: State, m: Move, s': State, q: nat)
    requires Step(s, m, s') && q in s'.threads && (m.ThreadM? ==> m.p != q)
    ensures q in s.threads && s'.threads[q].key == s.threads[q].key && s'.threads[q].condition == s.threads[q].condition
    ensures s.used <= s'.used
  {
    match m
    case ThreadM(p, a) => ActLeavesOthers(s, p, a, s', q);
    case ListenM => ListenKeepsThreads(s, s', q);
    case _ =>
  }

  lemma StepKeepsNames(s: State, m: Move, s': State, q: nat)
    requires NamesUsed(s) && Step(s, m, s') && q in s'.threads
    ensures q in s'.used && s'.threads[q].condition in s'.used
  {
    if m.ThreadM? && m.p == q {
      ActKeepsOwnName(s, q, m.a, s');
    } else {
      StepKeepsOtherThreads(s, m, s', q);
    }
  }

  lemma ActKeepsEntryNames(s: State, p: nat, a: Action, s': State, k: Key)
    requires NamesUsed(s) && Act(s, p, a, s') && k in s'.dict
    ensures s'.dict[k].condition in s'.used
  {
  }

  lemma StepKeepsEntryNames(s: State, m: Move, s': State, k: Key)
    requires NamesUsed(s) && Step(s, m, s') && k in s'.dict
    ensures s'.dict[k].condition in s'.used
  {
    if m.ThreadM? {
      ActKeepsEntryNames(s, m.p, m.a, s', k);
    }
  }

  lemma StepKeepsListenerName(s: State, m: Move, s': State)
    requires NamesUsed(s) && Step(s, m, s')
    ensures !s'.listener.Idle? ==> s'.listener.condition in s'.used
  {
  }

  lemma StepKeepsNamesUsed(s: State, m: Move, s': State)
    requires NamesUsed(s) && Step(s, m, s')
    ensures NamesUsed(s')
  {
    forall q | q in s'.threads
      ensures q in s'.used && s'.threads[q].condition in s'.used
    {
      StepKeepsNames(s, m, s', q);
    }
    forall k | k in s'.dict
      ensures s'.dict[k].condition in s'.used
    {
      StepKeepsEntryNames(s, m, s', k);
    }
    StepKeepsListenerName(s, m, s');
  }

  /** Different threads, or a thread and the listener, never hold one condition together. */
  ghost predicate OneHolder(s: State) {
    && (forall p, q :: p in s.threads && q in s.threads ==> Apart(s, p, q))
    && (forall p :: p in s.threads ==> ApartFromListener(s, p))
  }

  ghost predicate Apart(s: State, p: nat, q: nat)
    requires p in s.threads && q in s.threads
  {
    p != q && Holds(s.threads[p]) && Holds(s.threads[q]) ==> s.threads[p].condition != s.threads[q].condition
  }

  ghost predicate ApartFromListener(s: State, p: nat)
    requires p in s.threads
  {
    Holds(s.threads[p]) ==> !ListenerHolds(s, s.threads[p].condition)
  }

  lemma NewHoldOfMover(s: State, p: nat, a: Action, s': State)
    requires Act(s, p, a, s') && p in s'.threads && Holds(s'.threads[p])
    ensures || (p in s.threads && Holds(s.threads[p]) && s'.threads[p].condition == s.threads[p].condition)
            || (p !in s.used && s'.threads[p].condition == p)
            || Free(s, s'.threads[p].condition)
  {
  }

  lemma StepKeepsOtherHolds(s: State, m: Move, s': State, p: nat)
    requires Step(s, m, s') && p in s'.threads && (m.ThreadM? ==> m.p != p)
    ensures p in s.threads && (Holds(s'.threads[p]) <==> Holds(s.threads[p]))
  {
  }

  /** A thread takes hold of a condition that is new or free, and otherwise keeps its own. */
  lemma NewHold(s: State, m: Move, s': State, p: nat)
    requires Step(s, m, s') && p in s'.threads && Holds(s'.threads[p])
    ensures || (p in s.threads && Holds(s.threads[p]) && s'.threads[p].condition == s.threads[p].condition)
            || (s'.threads[p].condition !in s.used && m.ThreadM? && m.p == p)
            || (Free(s, s'.threads[p].condition) && m.ThreadM? && m.p == p)
  {
    if m.ThreadM? && m.p == p {
      NewHoldOfMover(s, p, m.a, s');
    } else {
      StepKeepsOtherThreads(s, m, s', p);
      StepKeepsOtherHolds(s, m, s', p);
    }
  }

  lemma StepKeepsApart(s: State, m: Move, s': State, p: nat, q: nat)
    requires NamesUsed(s) && Step(s, m, s') && p in s'.threads && q in s'.threads
    requires p in s.threads && q in s.threads ==> Apart(s, p, q)
    ensures Apart(s', p, q)
  {
    if p != q && Holds(s'.threads[p]) && Holds(s'.threads[q]) {
      NewHold(s, m, s', p);
      NewHold(s, m, s', q);
    }
  }

  lemma StepKeepsApartFromListener(s: State, m: Move, s': State, p: nat)
    requires NamesUsed(s) && Step(s, m, s') && p in s'.threads
    requires p in s.threads ==> ApartFromListener(s, p)
    ensures ApartFromListener(s', p)
  {
    if Holds(s'.threads[p]) {
      NewHold(s, m, s', p);
    }
  }

  lemma StepKeepsOneHolder(s: State, m: Move, s': State)
    requires OneHolder(s) && NamesUsed(s) && Step(s, m, s')
    ensures OneHolder(s')
  {
    forall p, q | p in s'.threads && q in s'.threads
      ensures Apart(s', p, q)
    {
      StepKeepsApart(s, m, s', p, q);
    }
    forall p | p in s'.threads
      ensures ApartFromListener(s', p)
    {
      StepKeepsApartFromListener(s, m, s', p);
    }
  }

  // ----- no lost wakeup -----

  /** The announcement is still queued, or the listener is about to signal this condition. */
  predicate WakeupPending(s: State, t: Thread) {
    || t.key in s.queue
    || ((s.listener.Got? || s.listener.Locked?) && s.listener.condition == t.condition)
  }

  predicate Unsignalled(t: Thread) {
    t.pc.CheckedEmpty? || t.pc == Waiting(false)
  }

  /** A thread that found no row while there is one now has a wakeup on the way. */
  ghost predicate NotLost(s: State, p: nat)
    requires p in s.threads
  {
    var t := s.threads[p];
    Unsignalled(t) && Rows(s, t.key) > 0 ==> WakeupPending(s, t)
  }

  lemma ThreadKeepsNotLost(s: State, p: nat, a: Action, s': State, q: nat)
    requires Act(s, p, a, s') && q in s'.threads && (q in s.threads ==> NotLost(s, q))
    ensures NotLost(s', q)
  {
  }

  lemma InsertKeepsNotLost(s: State, k: Key, s': State, q: nat)
    requires Insert(s, k, s') && q in s'.threads && NotLost(s, q)
    ensures NotLost(s', q)
  {
  }

  /** The listener signals only while it holds the condition, so a thread between its check and
      its wait is not passed over. */
  lemma ListenKeepsNotLost(s: State, s': State, q: nat)
    requires Listen(s, s') && q in s'.threads && NotLost(s, q)
    requires q in s.threads && UsesEntry(s, q)
    requires Holds(s.threads[q]) ==> !ListenerHolds(s, s.threads[q].condition)
    ensures NotLost(s', q)
  {
  }

  ghost predicate Inv(s: State) {
    && DictInv(s) && NamesUsed(s) && OneHolder(s)
    && forall p :: p in s.threads ==> NotLost(s, p)
  }

  lemma StepKeepsInv(s: State, m: Move, s': State)
    requires Inv(s) && Step(s, m, s')
    ensures Inv(s')
  {
    StepKeepsDictInv(s, m, s');
    StepKeepsNamesUsed(s, m, s');
    StepKeepsOneHolder(s, m, s');
    forall q | q in s'.threads
      ensures NotLost(s', q)
    {
      assert q in s.threads ==> NotLost(s, q) && UsesEntry(s, q) && ApartFromListener(s, q);
      match m
      case ThreadM(p, a) => ThreadKeepsNotLost(s, p, a, s', q);
      case InsertM(k) => InsertKeepsNotLost(s, k, s', q);
      case ConsumeM(k) =>
      case ListenM => ListenKeepsNotLost(s, s', q);
    }
  }

  lemma {:induction false} RunKeepsInv(run: seq<State>, i: nat)
    requires Run(run) && i < |run|
    ensures Inv(run[i])
  {
    if i > 0 {
      RunKeepsInv(run, i - 1);
      assert StepAt(run, i - 1);
      var m :| Step(run[i - 1], m, run[i]);
      StepKeepsInv(run[i - 1], m, run[i]);
    }
  }

  // ----- main results -----

  /** No lost wakeup: over all interleavings, when there is a row under the key of a thread that
      found none and waits, the thread has been signalled or its wakeup is on the way. */
  lemma NoLostWakeup(run: seq<State>, i: nat, p: nat)
    requires Run(run) && i < |run| && p in run[i].threads
    requires run[i].threads[p].pc.Waiting? && Rows(run[i], run[i].threads[p].key) > 0
    ensures run[i].threads[p].pc.signalled || WakeupPending(run[i], run[i].threads[p])
  {
    RunKeepsInv(run, i);
    assert NotLost(run[i], p);
  }

  /** The entry of a thread that is registered, looking or waiting holds its own condition, and
      counts the threads between `set` and `pop` on that key. */
  lemma EntryIsOurs(run: seq<State>, i: nat, p: nat)
    requires Run(run) && i < |run| && p in run[i].threads
    requires Counted(run[i].threads[p]) && !run[i].threads[p].pc.Conflicted?
    ensures var s, t := run[i], run[i].threads[p];
            && t.key in s.dict && s.dict[t.key].condition == t.condition
            && s.dict[t.key].count == |Users(s, t.key)|
  {
    RunKeepsInv(run, i);
    assert UsesEntry(run[i], p);
    assert EntryCounts(run[i], run[i].threads[p].key);
  }

  // ----- why a thread goes on, or waits -----

  /** In state `i` thread `p` was about to look, and there was a row under its key, or there was none. */
  ghost predicate Looked(run: seq<State>, i: nat, p: nat, found: bool)
    requires i < |run|
  {
    && p in run[i].threads && run[i].threads[p].pc.Registered?
    && (Rows(run[i], run[i].threads[p].key) > 0 <==> found)
  }

  predicate PastLook(t: Thread, found: bool) {
    if found then t.pc.FoundRow? else t.pc.CheckedEmpty? || t.pc.Waiting?
  }

  lemma StepToPastLook(s: State, m: Move, s': State, p: nat, found: bool)
    requires Step(s, m, s') && p in s'.threads && PastLook(s'.threads[p], found)
    ensures p in s.threads
    ensures || PastLook(s.threads[p], found)
            || (s.threads[p].pc.Registered? && (Rows(s, s.threads[p].key) > 0 <==> found))
  {
  }

  /** A thread that leaves without waiting found a row when it looked, and one that waits found none. */
  lemma {:induction false} LookedAndFound(run: seq<State>, i: nat, p: nat, found: bool)
    requires Run(run) && i < |run| && p in run[i].threads && PastLook(run[i].threads[p], found)
    ensures exists j :: 0 <= j < i && Looked(run, j, p, found)
  {
    if i > 0 {
      assert StepAt(run, i - 1);
      var m :| Step(run[i - 1], m, run[i]);
      StepToPastLook(run[i - 1], m, run[i], p, found);
      if PastLook(run[i - 1].threads[p], found) {
        LookedAndFound(run, i - 1, p, found);
      } else {
        assert Looked(run, i - 1, p, found);
      }
    }
  }

  /** In state `i` thread `p` waited and the listener held its condition to signal it. */
  ghost predicate SignalledIn(run: seq<State>, i: nat, p: nat)
    requires i < |run|
  {
    && p in run[i].threads && run[i].threads[p].pc.Waiting?
    && run[i].listener.Locked? && run[i].listener.condition == run[i].threads[p].condition
  }

  lemma StepToSignalled(s: State, m: Move, s': State, p: nat)
    requires Step(s, m, s') && p in s'.threads && s'.threads[p].pc == Waiting(true)
    ensures p in s.threads && s.threads[p].pc.Waiting?
    ensures s.threads[p].pc.signalled || (s.listener.Locked? && s.listener.condition == s.threads[p].condition)
  {
  }

  /** A waiting thread counts as signalled only because the listener signalled its condition. */
  lemma {:induction false} SignalledByListener(run: seq<State>, i: nat, p: nat)
    requires Run(run) && i < |run| && p in run[i].threads && run[i].threads[p].pc == Waiting(true)
    ensures exists j :: 0 <= j < i && SignalledIn(run, j, p)
  {
    if i > 0 {
      assert StepAt(run, i - 1);
      var m :| Step(run[i - 1], m, run[i]);
      StepToSignalled(run[i - 1], m, run[i], p);
      if run[i - 1].threads[p].pc.signalled {
        SignalledByListener(run, i - 1, p);
      } else {
        assert SignalledIn(run, i - 1, p);
      }
    }
  }
}
