/** Backfilling a schedule: firing the times between two moments, in order. */
module Backfill {
  import opened SystemTables
  import opened Calendar
  import opened Cron
  import opened CronExact
  import opened CronUnion
  import opened CronIterator
  import opened Schedule
  import SystemDatabase

  datatype BackfillError = ScheduleNotFound | BadDate

  // ----- the times produced -----

  /** The time before the `i`-th; `start` before the first. */
  function Before(start: DateTime, times: seq<DateTime>, i: nat): DateTime
    requires i <= |times|
  {
    if i == 0 then start else times[i - 1]
  }

  function Last(start: DateTime, times: seq<DateTime>): DateTime {
    Before(start, times, |times|)
  }

  ghost predicate IsStep(e: Expression, a: DateTime, t: DateTime) {
    Expanded(e) && Valid(a) && Next(e, a) == Some(t) && Valid(t) && Stamp(a) < Stamp(t)
  }

  /** Each time is what the iterator gives after the one before. */
  ghost predicate Iterated(e: Expression, start: DateTime, times: seq<DateTime>) {
    forall i :: 0 <= i < |times| ==> StepAt(e, start, times, i)
  }

  ghost predicate AllBefore(times: seq<DateTime>, end: DateTime)
    requires Valid(end)
  {
    forall i :: 0 <= i < |times| ==> Valid(times[i]) && Stamp(times[i]) < Stamp(end)
  }

  /** What the loop produces: it goes on to the first time at `end` or later. */
  ghost predicate Produced(e: Expression, start: DateTime, end: DateTime, times: seq<DateTime>)
    requires Valid(end)
  {
    && Iterated(e, start, times)
    && AllBefore(times, end)
    && exists t :: IsStep(e, Last(start, times), t) && Stamp(t) >= Stamp(end)
  }

  /** `times` are exactly the matching times after `start` and up to `upTo`, in order. */
  ghost predicate Enumerates(e: Expression, times: seq<DateTime>, start: int, upTo: int) {
    && (forall i :: 0 <= i < |times| ==> Valid(times[i]))
    && (forall i, j :: 0 <= i < j < |times| ==> Stamp(times[i]) < Stamp(times[j]))
    && forall x :: Valid(x) ==> (x in times <==> MatchesCrontab(e, x) && start < Stamp(x) <= upTo)
  }

  lemma StepIsLeast(e: Expression, a: DateTime, t: DateTime)
    requires Expanded(e) && Exact(e) && IsStep(e, a, t)
    ensures LeastAfter(e, a, t)
  {
    ExactIsRight(e, a);
  }

  ghost predicate StepAt(e: Expression, start: DateTime, times: seq<DateTime>, i: nat)
    requires i < |times|
  {
    IsStep(e, Before(start, times, i), times[i])
  }

  lemma StepsOfPrefix(e: Expression, start: DateTime, times: seq<DateTime>, n: nat, i: nat)
    requires i < n <= |times|
    ensures StepAt(e, start, times[..n], i) <==> StepAt(e, start, times, i)
  {
    assert Before(start, times[..n], i) == Before(start, times, i) && times[..n][i] == times[i];
  }

  lemma IteratedSnoc(e: Expression, start: DateTime, times: seq<DateTime>, t: DateTime)
    requires Iterated(e, start, times) && IsStep(e, Last(start, times), t)
    ensures Iterated(e, start, times + [t])
  {
    var all := times + [t];
    assert all[..|times|] == times;
    forall i | 0 <= i < |all|
      ensures StepAt(e, start, all, i)
    {
      if i < |times| {
        StepsOfPrefix(e, start, all, |times|, i);
      }
    }
  }

  lemma EnumeratesNext(e: Expression, times: seq<DateTime>, start: DateTime, cur: DateTime, t: DateTime)
    requires Valid(start) && Valid(cur) && Stamp(start) <= Stamp(cur)
    requires Enumerates(e, times, Stamp(start), Stamp(cur)) && LeastAfter(e, cur, t)
    ensures Enumerates(e, times + [t], Stamp(start), Stamp(t))
  {
    forall i | 0 <= i < |times|
      ensures Stamp(times[i]) <= Stamp(cur)
    {
      assert times[i] in times;
    }
    forall x | Valid(x)
      ensures x in times + [t] <==> MatchesCrontab(e, x) && Stamp(start) < Stamp(x) <= Stamp(t)
    {
      TimeOrder(x, t);
    }
  }

  lemma NothingBetween(e: Expression, times: seq<DateTime>, start: DateTime, cur: DateTime, t: DateTime, end: DateTime)
    requires Valid(start) && Valid(cur) && Valid(end) && Stamp(start) <= Stamp(cur)
    requires Enumerates(e, times, Stamp(start), Stamp(cur)) && LeastAfter(e, cur, t)
    requires Stamp(t) >= Stamp(end)
    requires if times == [] then cur == start else Stamp(cur) < Stamp(end)
    ensures Enumerates(e, times, Stamp(start), Stamp(end) - 1)
  {
  }

  ghost predicate EnumeratesAll(e: Expression, start: DateTime, times: seq<DateTime>)
    requires Valid(start)
  {
    var last := Last(start, times);
    Valid(last) && Stamp(start) <= Stamp(last) && Enumerates(e, times, Stamp(start), Stamp(last))
  }

  lemma NothingYet(e: Expression, start: DateTime)
    requires Valid(start)
    ensures EnumeratesAll(e, start, [])
  {
  }

  lemma StepEnumerates(e: Expression, start: DateTime, times: seq<DateTime>, t: DateTime)
    requires Expanded(e) && Exact(e) && Valid(start) && EnumeratesAll(e, start, times)
    requires IsStep(e, Last(start, times), t)
    ensures EnumeratesAll(e, start, times + [t])
  {
    StepIsLeast(e, Last(start, times), t);
    EnumeratesNext(e, times, start, Last(start, times), t);
  }

  lemma LastOfPrefix(e: Expression, start: DateTime, times: seq<DateTime>, n: nat)
    requires Iterated(e, start, times) && n < |times|
    ensures IsStep(e, Last(start, times[..n]), times[n]) && times[..n + 1] == times[..n] + [times[n]]
  {
    assert StepAt(e, start, times, n);
    assert Last(start, times[..n]) == Before(start, times, n);
  }

  lemma {:induction false} IteratedEnumerates(e: Expression, start: DateTime, times: seq<DateTime>, n: nat)
    requires Expanded(e) && Exact(e) && Valid(start) && Iterated(e, start, times) && n <= |times|
    ensures EnumeratesAll(e, start, times[..n])
  {
    if n == 0 {
      NothingYet(e, start);
    } else {
      IteratedEnumerates(e, start, times, n - 1);
      LastOfPrefix(e, start, times, n - 1);
      StepEnumerates(e, start, times[..n - 1], times[n - 1]);
    }
  }

  /** What an exact expression's backfill produces are all its times between start and end. */
  lemma ExactProducesAll(e: Expression, start: DateTime, end: DateTime, times: seq<DateTime>)
    requires Expanded(e) && Exact(e) && Valid(start) && Valid(end) && Produced(e, start, end, times)
    ensures Enumerates(e, times, Stamp(start), Stamp(end) - 1)
  {
    IteratedEnumerates(e, start, times, |times|);
    assert times[..|times|] == times;
    var t :| IsStep(e, Last(start, times), t) && Stamp(t) >= Stamp(end);
    StepIsLeast(e, Last(start, times), t);
    NothingBetween(e, times, start, Last(start, times), t, end);
  }

  lemma NextMatches(e: Expression, now: DateTime)
    requires Expanded(e) && Valid(now) && Next(e, now).Some?
    ensures IsStep(e, now, Next(e, now).value) && MatchesCrontab(e, Next(e, now).value)
  {
    if BothDays(e) {
      SearchIsValid(ByMonthday(e), now);
      SearchIsValid(ByWeekday(e), now);
      SearchMatches(ByMonthday(e), now);
      SearchMatches(ByWeekday(e), now);
      UnionMatches(e, Next(e, now).value);
    } else {
      SearchIsValid(e, now);
      SearchMatches(e, now);
    }
  }

  lemma SearchMatches(e: Expression, now: DateTime)
    requires Expanded(e) && Valid(now) && Search(e, now).Some?
    ensures Valid(Search(e, now).value) && Matches(e, Search(e, now).value)
  {
    StartMissesNone(e, now, now);
    SearchGoesForward(e, StartOf(e, now), StartOf(e, now).date.year);
  }

  /** A wrong step leaves a time out of the backfill from before it to its result. */
  lemma WrongStepLeavesOut(e: Expression, now: DateTime)
    requires Expanded(e) && Valid(now) && Next(e, now).Some? && !Right(e, now, Next(e, now))
    ensures var end := Next(e, now).value;
            Valid(end) && Produced(e, now, end, []) && !Enumerates(e, [], Stamp(now), Stamp(end) - 1)
  {
    NextMatches(e, now);
    var end := Next(e, now).value;
    assert Last(now, []) == now;
    var x :| Valid(x) && MatchesCrontab(e, x) && Stamp(now) < Stamp(x) < Stamp(end);
    assert x !in [];
  }

  /** The exact condition for backfills. Wherever the iterator finds times at all, backfills
      produce exactly the times between start and end if and only if the lists of the expression
      satisfy `Exact`. */
  lemma BackfillIsExactIff(e: Expression)
    requires Expanded(e) && !NoMonthday(e) && !NoWeekday(e)
    ensures (forall start, end, times :: Valid(start) && Valid(end) && Produced(e, start, end, times) ==>
               Enumerates(e, times, Stamp(start), Stamp(end) - 1))
            <==> Exact(e)
  {
    if Exact(e) {
      forall start, end, times | Valid(start) && Valid(end) && Produced(e, start, end, times)
        ensures Enumerates(e, times, Stamp(start), Stamp(end) - 1)
      {
        ExactProducesAll(e, start, end, times);
      }
    } else {
      NextIsRightIff(e);
      var now :| Valid(now) && !Right(e, now, Next(e, now));
      NextFailsIff(e, now);
      WrongStepLeavesOut(e, now);
    }
  }

  // ----- the loop -----

  function Firings(times: seq<DateTime>, now: int): seq<Firing> {
    seq(|times|, i requires 0 <= i < |times| => Firing(times[i], now, BACKFILL))
  }

  ghost predicate IdsAre(s: ScheduleRow, times: seq<DateTime>, ids: seq<Id>) {
    |ids| == |times| && forall i :: 0 <= i < |ids| ==> Valid(times[i]) && ids[i] == IdOf(s.name, times[i])
  }

  lemma FireAllNext(before: StatusTable, s: ScheduleRow, times: seq<DateTime>, t: DateTime, now: int)
    requires FiringsOk(Firings(times, now)) && Valid(t) && t.date.year <= MAX_YEAR
    ensures FiringsOk(Firings(times + [t], now))
    ensures var f := Firing(t, now, BACKFILL);
            FireAll(before, s, Firings(times + [t], now)) == Fire(FireAll(before, s, Firings(times, now)), s, f)
  {
    var firings := Firings(times, now) + [Firing(t, now, BACKFILL)];
    assert Firings(times + [t], now) == firings;
    assert firings[..|firings| - 1] == Firings(times, now);
  }

  /** What a backfill has fired and returned, for the times so far. */
  ghost predicate FiredSoFar(s: ScheduleRow, times: seq<DateTime>, ids: seq<Id>, before: StatusTable,
                             st: StatusTable, now: int)
  {
    IdsAre(s, times, ids) && FiringsOk(Firings(times, now)) && st == FireAll(before, s, Firings(times, now))
  }

  lemma NothingFired(s: ScheduleRow, st: StatusTable, now: int)
    ensures FiredSoFar(s, [], [], st, st, now)
  {
  }

  lemma OneMoreFired(s: ScheduleRow, times: seq<DateTime>, ids: seq<Id>, before: StatusTable, st: StatusTable,
                     now: int, t: DateTime)
    requires FiredSoFar(s, times, ids, before, st, now) && Valid(t) && t.date.year <= MAX_YEAR
    ensures FiredSoFar(s, times + [t], ids + [IdOf(s.name, t)], before, Fire(st, s, Firing(t, now, BACKFILL)), now)
  {
    FireAllNext(before, s, times, t, now);
  }

  /** Fires one time, unless it has its row. */
  method FireOnce(sys: SystemDatabase.SystemDatabase, s: ScheduleRow, t: DateTime, now: int) returns (id: Id)
    requires Valid(t)
    modifies sys`status
    ensures id == IdOf(s.name, t) && sys.status == Fire(old(sys.status), s, Firing(t, now, BACKFILL))
  {
    id := IdOf(s.name, t);
    var f := Firing(t, now, BACKFILL);
    InsertIsFire(sys.status, s, f);
    if id !in sys.status {
      var started := sys.InitWorkflow(RequestFor(s, f), CallerOf(f), now);
    }
  }

  /** Asks for the next time; tells that it is a step of the iteration, or why there is none. */
  method NextTime(it: Croniter) returns (next: Option<DateTime>)
    requires Expanded(it.expanded) && Valid(it.cur)
    modifies it
    ensures next.None? <==> NoMonthday(it.expanded) || NoWeekday(it.expanded)
    ensures next.Some? ==> IsStep(it.expanded, old(it.cur), next.value) && it.cur == next.value
    ensures next.None? ==> it.cur == old(it.cur)
  {
    NextFailsIff(it.expanded, it.cur);
    next := it.GetNext();
  }

  /** Where the loop stands. */
  ghost predicate Looping(e: Expression, start: DateTime, end: DateTime, times: seq<DateTime>, cur: DateTime)
    requires Valid(end)
  {
    && Expanded(e) && Valid(cur) && cur == Last(start, times) && Iterated(e, start, times)
    && AllBefore(times, end)
  }

  lemma LoopsOn(e: Expression, start: DateTime, end: DateTime, times: seq<DateTime>, cur: DateTime, t: DateTime)
    requires Valid(end) && Looping(e, start, end, times, cur) && IsStep(e, cur, t) && Stamp(t) < Stamp(end)
    ensures Looping(e, start, end, times + [t], t)
    ensures t.date.year <= end.date.year
  {
    IteratedSnoc(e, start, times, t);
    TimeOrder(t, end);
  }

  lemma LoopsEnd(e: Expression, start: DateTime, end: DateTime, times: seq<DateTime>, cur: DateTime, t: DateTime)
    requires Valid(start) && Valid(end) && Looping(e, start, end, times, cur)
    requires IsStep(e, cur, t) && Stamp(t) >= Stamp(end)
    ensures Produced(e, start, end, times)
  {
  }

  /** The loop, for a schedule that was found. */
  method FireTimes(sys: SystemDatabase.SystemDatabase, s: ScheduleRow, start: DateTime, end: DateTime, now: int)
    returns (r: Result<seq<Id>, BackfillError>, ghost times: seq<DateTime>)
    requires Expanded(s.expression) && Valid(start) && Valid(end) && end.date.year <= MAX_YEAR
    modifies sys`status
    ensures r.Err? ==> r.error == BadDate && sys.status == old(sys.status)
    ensures r.Err? <==> NoMonthday(s.expression) || NoWeekday(s.expression)
    ensures r.Ok? ==> Produced(s.expression, start, end, times)
    ensures r.Ok? ==> FiredSoFar(s, times, r.value, old(sys.status), sys.status, now)
  {
    times := [];
    var it := new Croniter(s.expression, start);
    var ids := [];
    ghost var before := sys.status;
    NothingFired(s, before, now);
    while true
      invariant it.expanded == s.expression && Looping(s.expression, start, end, times, it.cur)
      invariant FiredSoFar(s, times, ids, before, sys.status, now)
      invariant times == [] ==> sys.status == before
      invariant times != [] ==> !NoMonthday(s.expression) && !NoWeekday(s.expression)
      decreases Stamp(end) - Stamp(it.cur)
    {
      ghost var cur := it.cur;
      var next := NextTime(it);
      if next.None? {
        return Err(BadDate), times;
      }
      var t := next.value;
      if Stamp(t) >= Stamp(end) {
        LoopsEnd(s.expression, start, end, times, cur, t);
        break;
      }
      LoopsOn(s.expression, start, end, times, cur, t);
      OneMoreFired(s, times, ids, before, sys.status, now, t);
      var id := FireOnce(sys, s, t, now);
      ids := ids + [id];
      times := times + [t];
    }
    r := Ok(ids);
  }

  /** `backfill_schedule`: enqueues, and returns in order, the times the iterator produces between
      `start` and `end`. It fails exactly when there is no such schedule, or when no listed month
      has the first listed day or no weekday is listed; then nothing is fired. */
  method BackfillSchedule(sys: SystemDatabase.SystemDatabase, schedule: Option<ScheduleRow>, start: DateTime,
                          end: DateTime, now: int)
    returns (r: Result<seq<Id>, BackfillError>, ghost times: seq<DateTime>)
    requires schedule.Some? ==> Expanded(schedule.value.expression)
    requires Valid(start) && Valid(end) && end.date.year <= MAX_YEAR
    modifies sys`status
    ensures schedule.None? <==> r == Err(ScheduleNotFound)
    ensures schedule.Some? ==>
              (r == Err(BadDate) <==> NoMonthday(schedule.value.expression) || NoWeekday(schedule.value.expression))
    ensures r.Err? ==> sys.status == old(sys.status)
    ensures r.Ok? ==> Produced(schedule.value.expression, start, end, times)
    ensures r.Ok? ==> FiredSoFar(schedule.value, times, r.value, old(sys.status), sys.status, now)
    ensures r.Ok? && Exact(schedule.value.expression) ==>
              Enumerates(schedule.value.expression, times, Stamp(start), Stamp(end) - 1)
  {
    if schedule.None? {
      return Err(ScheduleNotFound), [];
    }
    var e := schedule.value.expression;
    r, times := FireTimes(sys, schedule.value, start, end, now);
    if r.Ok? && Exact(e) {
      ExactProducesAll(e, start, end, times);
    }
  }
}
