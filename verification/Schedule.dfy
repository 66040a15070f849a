/** Firing schedules: each scheduled time is one workflow, named after the time, whoever fires
    it and however often. */
module Schedule {
  import opened SystemTables
  import opened WorkflowRows
  import opened Calendar
  import opened Cron
  import SystemDatabase

  // ----- workflow ids -----

  function Digit(n: int): char {
    "0123456789"[n % 10]
  }

  function Digits(n: int, places: nat): string
    requires n >= 0
  {
    if places == 0 then "" else Digits(n / 10, places - 1) + [Digit(n)]
  }

  function Pow10(n: nat): int {
    if n == 0 then 1 else 10 * Pow10(n - 1)
  }

  lemma {:induction false} DigitsDetermine(m: int, n: int, places: nat)
    requires 0 <= m < Pow10(places) && 0 <= n < Pow10(places)
    requires Digits(m, places) == Digits(n, places)
    ensures m == n
  {
    if places > 0 {
      var a, b := Digits(m / 10, places - 1), Digits(n / 10, places - 1);
      DigitsLength(m / 10, places - 1);
      DigitsLength(n / 10, places - 1);
      assert (a + [Digit(m)])[..places - 1] == a && (b + [Digit(n)])[..places - 1] == b;
      assert (a + [Digit(m)])[places - 1] == Digit(m) && (b + [Digit(n)])[places - 1] == Digit(n);
      DigitsDetermine(m / 10, n / 10, places - 1);
      DigitDetermines(m % 10, n % 10);
    }
  }

  lemma DigitDetermines(m: int, n: int)
    requires 0 <= m < 10 && 0 <= n < 10 && Digit(m) == Digit(n)
    ensures m == n
  {
  }

  lemma {:induction false} DigitsLength(n: int, places: nat)
    requires n >= 0
    ensures |Digits(n, places)| == places
  {
    if places > 0 {
      DigitsLength(n / 10, places - 1);
    }
  }

  /** `isoformat` of a UTC time without microseconds. */
  function Iso(t: DateTime): string
    requires Valid(t)
  {
    Digits(t.date.year, 4) + "-" + Digits(t.date.month, 2) + "-" + Digits(t.date.day, 2) + "T"
    + Digits(t.hour, 2) + ":" + Digits(t.minute, 2) + ":" + Digits(t.second, 2) + "+00:00"
  }

  function IdOf(schedule: string, t: DateTime): Id
    requires Valid(t)
  {
    "sched-" + schedule + "-" + Iso(t)
  }

  const MAX_YEAR := 9999

  lemma IsoParts(t: DateTime)
    requires Valid(t)
    ensures |Iso(t)| == 25
    ensures Iso(t)[0..4] == Digits(t.date.year, 4) && Iso(t)[5..7] == Digits(t.date.month, 2)
    ensures Iso(t)[8..10] == Digits(t.date.day, 2) && Iso(t)[11..13] == Digits(t.hour, 2)
    ensures Iso(t)[14..16] == Digits(t.minute, 2) && Iso(t)[17..19] == Digits(t.second, 2)
  {
    DigitsLength(t.date.year, 4);
    DigitsLength(t.date.month, 2);
    DigitsLength(t.date.day, 2);
    DigitsLength(t.hour, 2);
    DigitsLength(t.minute, 2);
    DigitsLength(t.second, 2);
    Layout(Digits(t.date.year, 4), Digits(t.date.month, 2), Digits(t.date.day, 2),
           Digits(t.hour, 2), Digits(t.minute, 2), Digits(t.second, 2));
  }

  lemma Layout(year: string, month: string, day: string, hour: string, minute: string, second: string)
    requires |year| == 4 && |month| == |day| == |hour| == |minute| == |second| == 2
    ensures var s := year + "-" + month + "-" + day + "T" + hour + ":" + minute + ":" + second + "+00:00";
            && |s| == 25 && s[0..4] == year && s[5..7] == month && s[8..10] == day
            && s[11..13] == hour && s[14..16] == minute && s[17..19] == second
  {
  }

  lemma IsoDetermines(t: DateTime, u: DateTime)
    requires Valid(t) && Valid(u) && t.date.year <= MAX_YEAR && u.date.year <= MAX_YEAR
    requires Iso(t) == Iso(u)
    ensures t == u
  {
    IsoParts(t);
    IsoParts(u);
    assert Pow10(2) == 100;
    assert Pow10(4) == 100 * Pow10(2);
    DigitsDetermine(t.date.year, u.date.year, 4);
    DigitsDetermine(t.date.month, u.date.month, 2);
    DigitsDetermine(t.date.day, u.date.day, 2);
    DigitsDetermine(t.hour, u.hour, 2);
    DigitsDetermine(t.minute, u.minute, 2);
    DigitsDetermine(t.second, u.second, 2);
  }

  /** Different times have different ids. */
  lemma IdDetermines(schedule: string, t: DateTime, u: DateTime)
    requires Valid(t) && Valid(u) && t.date.year <= MAX_YEAR && u.date.year <= MAX_YEAR
    ensures IdOf(schedule, t) == IdOf(schedule, u) <==> t == u
  {
    if IdOf(schedule, t) == IdOf(schedule, u) {
      SameTail("sched-" + schedule + "-", Iso(t), Iso(u));
      IsoDetermines(t, u);
    }
  }

  lemma SameTail(head: string, a: string, b: string)
    requires head + a == head + b
    ensures a == b
  {
    assert (head + a)[|head|..] == a && (head + b)[|head|..] == b;
  }

  lemma TwoDigits(n: int)
    requires 0 <= n < 100
    ensures Digits(n, 2) == [Digit(n / 10), Digit(n)]
  {
    assert Digits(n / 10 / 10, 0) == "";
    assert Digits(n / 10, 1) == [Digit(n / 10)];
  }

  lemma YearDigits()
    ensures Digits(2024, 4) == "2024"
  {
    TwoDigits(20);
    assert Digits(202, 3) == Digits(20, 2) + ['2'];
  }

  lemma DayDigits()
    ensures Digits(1, 2) == "01" && Digits(31, 2) == "31"
  {
    TwoDigits(1);
    TwoDigits(31);
  }

  lemma TimeDigits()
    ensures Digits(23, 2) == "23" && Digits(5, 2) == "05" && Digits(9, 2) == "09"
  {
    TwoDigits(23);
    TwoDigits(5);
    TwoDigits(9);
  }

  /** The format, on an example. */
  lemma IsoOfANewYear()
    ensures Iso(DateTime(Date(2024, 1, 31), 23, 5, 9)) == "2024-01-31T23:05:09+00:00"
  {
    YearDigits();
    DayDigits();
    TimeDigits();
  }

  // ----- firing -----

  /** `inputs` gives the serialized pair of a time and the schedule's context. */
  datatype ScheduleRow = ScheduleRow(name: string, workflowName: string, className: Option<string>,
                                     expression: Expression, inputs: DateTime -> Value)

  /** Who fires: a live scheduler enqueues with ids and limits of its own, a backfill without. */
  datatype Firer = Firer(xid: Option<string>, executorId: Option<string>, appVersion: Option<string>,
                         maxAttempts: Option<int>)

  const BACKFILL := Firer(None, None, None, None)

  /** A scheduled time, the clock when somebody fired it, and who did. */
  datatype Firing = Firing(t: DateTime, now: int, firer: Firer)

  function RequestFor(s: ScheduleRow, f: Firing): Request
    requires Valid(f.t)
  {
    Request(IdOf(s.name, f.t), Enqueued, s.workflowName, s.className, None, Some(INTERNAL_QUEUE_NAME), None, None, 0,
            f.firer.executorId, f.firer.appVersion, None, None, s.inputs(f.t))
  }

  function CallerOf(f: Firing): Caller {
    Caller(f.firer.xid, false, false, f.firer.maxAttempts)
  }

  /** Looks for the row, and inserts it when there is none. */
  function Fire(st: StatusTable, s: ScheduleRow, f: Firing): StatusTable
    requires Valid(f.t)
  {
    var id := IdOf(s.name, f.t);
    if id in st then st else st[id := NewRow(RequestFor(s, f), CallerOf(f), f.now)]
  }

  ghost predicate FiringsOk(firings: seq<Firing>) {
    forall i :: 0 <= i < |firings| ==> Valid(firings[i].t) && firings[i].t.date.year <= MAX_YEAR
  }

  function FireAll(st: StatusTable, s: ScheduleRow, firings: seq<Firing>): StatusTable
    requires FiringsOk(firings)
    decreases |firings|
  {
    if firings == [] then st
    else
      var n := |firings| - 1;
      Fire(FireAll(st, s, firings[..n]), s, firings[n])
  }

  /** Two schedulers may both find no row and both insert: inserting without looking has the
      same effect, as long as the workflow has not used up its attempts. */
  lemma InsertIsFire(st: StatusTable, s: ScheduleRow, f: Firing)
    requires Valid(f.t)
    requires IdOf(s.name, f.t) in st && f.firer.maxAttempts.Some? ==>
               st[IdOf(s.name, f.t)].recoveryAttempts <= f.firer.maxAttempts.value + 1
    requires IdOf(s.name, f.t) !in st && f.firer.maxAttempts.Some? ==> f.firer.maxAttempts.value >= 0
    ensures InitWorkflow(st, RequestFor(s, f), CallerOf(f), f.now).0 == Fire(st, s, f)
  {
  }

  ghost predicate Fired(firings: seq<Firing>, t: DateTime) {
    exists i :: 0 <= i < |firings| && firings[i].t == t
  }

  lemma FiredSnoc(before: seq<Firing>, last: Firing, t: DateTime)
    ensures Fired(before + [last], t) <==> Fired(before, t) || t == last.t
  {
    var firings := before + [last];
    if Fired(before, t) {
      var i :| 0 <= i < |before| && before[i].t == t;
      assert firings[i].t == t;
    }
    assert firings[|before|] == last;
  }

  /** The row `id` is the one for the scheduled time `t`. */
  ghost predicate IsRowFor(st: StatusTable, s: ScheduleRow, id: Id, t: DateTime) {
    && Valid(t) && id == IdOf(s.name, t) && id in st
    && st[id].status.Enqueued? && st[id].queueName == Some(INTERNAL_QUEUE_NAME) && st[id].inputs == s.inputs(t)
    && st[id].name == s.workflowName && st[id].className == s.className && st[id].configName.None?
    && st[id].dedupId.None? && st[id].startedAt.None? && st[id].priority == 0
  }

  ghost predicate NewRowsAreFired(st: StatusTable, st': StatusTable, s: ScheduleRow, firings: seq<Firing>) {
    forall id :: id in st' && id !in st ==> exists t :: Fired(firings, t) && IsRowFor(st', s, id, t)
  }

  lemma FireKeepsNewRows(st: StatusTable, st1: StatusTable, s: ScheduleRow, before: seq<Firing>, last: Firing)
    requires Valid(last.t) && NewRowsAreFired(st, st1, s, before)
    ensures NewRowsAreFired(st, Fire(st1, s, last), s, before + [last])
  {
    var st2 := Fire(st1, s, last);
    forall id | id in st2 && id !in st
      ensures exists t :: Fired(before + [last], t) && IsRowFor(st2, s, id, t)
    {
      if id in st1 {
        var t :| Fired(before, t) && IsRowFor(st1, s, id, t);
        FiredSnoc(before, last, t);
        assert IsRowFor(st2, s, id, t);
      } else {
        FiredSnoc(before, last, last.t);
        assert IsRowFor(st2, s, id, last.t);
      }
    }
  }

  lemma {:induction false} NewRowsOnlyForFired(st: StatusTable, s: ScheduleRow, firings: seq<Firing>)
    requires FiringsOk(firings)
    ensures NewRowsAreFired(st, FireAll(st, s, firings), s, firings)
    decreases |firings|
  {
    if firings != [] {
      var n := |firings| - 1;
      NewRowsOnlyForFired(st, s, firings[..n]);
      FireKeepsNewRows(st, FireAll(st, s, firings[..n]), s, firings[..n], firings[n]);
      assert firings == firings[..n] + [firings[n]];
    }
  }

  lemma {:induction false} FiredHaveRows(st: StatusTable, s: ScheduleRow, firings: seq<Firing>, t: DateTime)
    requires FiringsOk(firings) && Fired(firings, t) && Valid(t)
    ensures IdOf(s.name, t) in FireAll(st, s, firings)
    decreases |firings|
  {
    var n := |firings| - 1;
    assert firings == firings[..n] + [firings[n]];
    FiredSnoc(firings[..n], firings[n], t);
    if t != firings[n].t {
      FiredHaveRows(st, s, firings[..n], t);
    }
  }

  lemma {:induction false} RowsAreKept(st: StatusTable, s: ScheduleRow, firings: seq<Firing>, id: Id)
    requires FiringsOk(firings) && id in st
    ensures id in FireAll(st, s, firings) && FireAll(st, s, firings)[id] == st[id]
    decreases |firings|
  {
    if firings != [] {
      RowsAreKept(st, s, firings[..|firings| - 1], id);
    }
  }

  /** However backfills overlap, with each other and with live firings, there is exactly one new
      row for each time fired that had none, and rows that were there stay as they were. */
  lemma OneRowPerTime(st: StatusTable, s: ScheduleRow, firings: seq<Firing>)
    requires FiringsOk(firings)
    ensures forall id :: id in st ==> id in FireAll(st, s, firings) && FireAll(st, s, firings)[id] == st[id]
    ensures NewRowsAreFired(st, FireAll(st, s, firings), s, firings)
    ensures forall t :: Fired(firings, t) && Valid(t) ==> IdOf(s.name, t) in FireAll(st, s, firings)
  {
    forall id | id in st
      ensures id in FireAll(st, s, firings) && FireAll(st, s, firings)[id] == st[id]
    {
      RowsAreKept(st, s, firings, id);
    }
    NewRowsOnlyForFired(st, s, firings);
    forall t | Fired(firings, t) && Valid(t)
      ensures IdOf(s.name, t) in FireAll(st, s, firings)
    {
      FiredHaveRows(st, s, firings, t);
    }
  }

  /** Running any of it again changes nothing. */
  lemma {:induction false} FiringAgainChangesNothing(st: StatusTable, s: ScheduleRow, firings: seq<Firing>)
    requires FiringsOk(firings)
    requires forall i :: 0 <= i < |firings| ==> IdOf(s.name, firings[i].t) in st
    ensures FireAll(st, s, firings) == st
    decreases |firings|
  {
    if firings != [] {
      var n := |firings| - 1;
      FiringAgainChangesNothing(st, s, firings[..n]);
    }
  }
}
