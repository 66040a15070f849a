/** The loops that carry the search out, and the iterator over the times of an expression. */
module CronIterator {
  import opened SystemTables
  import opened Calendar
  import opened Cron
  import opened CronUnion

  // ----- the loops -----

  method Nearest(f: Field, x: int, range: int) returns (diff: int)
    requires f.Values? ==> |f.list| > 0 && Increasing(f.list) && x < f.list[0] + range
    ensures diff == Diff(f, x, range)
  {
    match f
    case Any => diff := 0;
    case Values(list) => diff := GetNextNearestDiff(x, list, range);
  }

  method ProcMonth(e: Expression, d: DateTime) returns (changed: bool, d': DateTime)
    requires Expanded(e) && Valid(d)
    ensures changed <==> MonthDiff(e, d.date) != 0
    ensures d' == if changed then Midnight(FirstOfMonth(d.date, MonthDiff(e, d.date))) else d
  {
    var diff := Nearest(e.month, d.date.month, 12);
    if diff != 0 {
      return true, Midnight(FirstOfMonth(d.date, diff));
    }
    return false, d;
  }

  method ProcDayOfMonth(e: Expression, d: DateTime) returns (changed: bool, d': DateTime)
    requires Expanded(e) && Valid(d)
    ensures changed <==> DayDiff(e, d.date) != 0
    ensures d' == if changed then Midnight(PlusDays(d.date, DayDiff(e, d.date))) else d
  {
    var days := DAYS[d.date.month - 1];
    if d.date.month == 2 && IsLeap(d.date.year) {
      days := days + 1;
    }
    var diff := Nearest(e.day, d.date.day, days);
    if diff != 0 {
      return true, Midnight(PlusDays(d.date, diff));
    }
    return false, d;
  }

  method ProcDayOfWeek(e: Expression, d: DateTime) returns (changed: bool, d': DateTime)
    requires Expanded(e) && Valid(d)
    ensures changed <==> Diff(e.dow, Weekday(d.date), 7) != 0
    ensures d' == if changed then Midnight(PlusDays(d.date, Diff(e.dow, Weekday(d.date), 7))) else d
  {
    var diff := Nearest(e.dow, Weekday(d.date), 7);
    if diff != 0 {
      return true, Midnight(PlusDays(d.date, diff));
    }
    return false, d;
  }

  method ProcHour(e: Expression, d: DateTime) returns (changed: bool, d': DateTime)
    requires Expanded(e) && Valid(d)
    ensures changed <==> Diff(e.hour, d.hour, 24) != 0
    ensures d' == if changed then PlusHours(d.(minute := 0, second := 0), Diff(e.hour, d.hour, 24)) else d
  {
    var diff := Nearest(e.hour, d.hour, 24);
    if diff != 0 {
      return true, PlusHours(d.(minute := 0, second := 0), diff);
    }
    return false, d;
  }

  method ProcMinute(e: Expression, d: DateTime) returns (changed: bool, d': DateTime)
    requires Expanded(e) && Valid(d)
    ensures changed <==> Diff(e.minute, d.minute, 60) != 0
    ensures d' == if changed then PlusMinutes(d.(second := 0), Diff(e.minute, d.minute, 60)) else d
  {
    var diff := Nearest(e.minute, d.minute, 60);
    if diff != 0 {
      return true, PlusMinutes(d.(second := 0), diff);
    }
    return false, d;
  }

  method ProcSecond(e: Expression, d: DateTime) returns (changed: bool, d': DateTime)
    requires Expanded(e) && Valid(d)
    ensures changed <==> e.second.Some? && Diff(e.second.value, d.second, 60) != 0
    ensures d' == if changed then PlusSeconds(d, Diff(e.second.value, d.second, 60)) else Floor(e, d)
  {
    if e.second.None? {
      return false, d.(second := 0);
    }
    var diff := Nearest(e.second.value, d.second, 60);
    if diff != 0 {
      return true, PlusSeconds(d, diff);
    }
    return false, d;
  }

  /** One pass over the fields, up to the first that changes the time. */
  method Pass(e: Expression, d: DateTime) returns (changed: bool, d': DateTime)
    requires Expanded(e) && Valid(d)
    ensures changed <==> Jump(e, d).Some?
    ensures d' == if changed then Jump(e, d).value else Floor(e, d)
  {
    changed, d' := ProcMonth(e, d);
    if changed { return; }
    changed, d' := ProcDayOfMonth(e, d);
    if changed { return; }
    changed, d' := ProcDayOfWeek(e, d);
    if changed { return; }
    changed, d' := ProcHour(e, d);
    if changed { return; }
    changed, d' := ProcMinute(e, d);
    if changed { return; }
    changed, d' := ProcSecond(e, d);
  }

  /** `_calc`. */
  method Calc(now: DateTime, e: Expression) returns (r: Option<DateTime>)
    requires Expanded(e) && Valid(now)
    ensures r == Search(e, now)
    ensures DaysSafe(e) ==> IsNext(e, now, r)
  {
    PlusSecondsCounts(now, if e.second.Some? then 1 else 60);
    var dst := StartOf(e, now);
    var currentYear := dst.date.year;
    if DaysSafe(e) {
      SearchFindsNext(e, now);
    }
    while InWindow(dst, currentYear)
      invariant Valid(dst) && Search(e, now) == SearchFrom(e, dst, currentYear)
      decreases Left(dst, currentYear)
    {
      var changed, d := Pass(e, dst);
      if !changed {
        return Some(d);
      }
      JumpsForward(e, dst);
      WindowBeforeHorizon(dst, currentYear);
      if InWindow(d, currentYear) {
        WindowBeforeHorizon(d, currentYear);
      }
      dst := d;
    }
    return None;
  }

  class Croniter {
    const expanded: Expression
    var cur: DateTime

    constructor (expanded: Expression, start: DateTime)
      ensures this.expanded == expanded && cur == start
    {
      this.expanded, cur := expanded, start;
    }

    /** Moves to the next time, or stays where it is when there is none. */
    method GetNext() returns (r: Option<DateTime>)
      requires Expanded(expanded) && Valid(cur)
      modifies this
      ensures r == Next(expanded, old(cur))
      ensures cur == if r.Some? then r.value else old(cur)
      ensures Valid(cur) && (r.Some? ==> Stamp(old(cur)) < Stamp(cur))
      ensures Exact(expanded) ==> Right(expanded, old(cur), r)
    {
      if Exact(expanded) {
        ExactIsRight(expanded, cur);
      }
      if BothDays(expanded) {
        var t1 := Calc(cur, ByMonthday(expanded));
        if t1.None? {
          return None;
        }
        var t2 := Calc(cur, ByWeekday(expanded));
        if t2.None? {
          return None;
        }
        SearchIsValid(ByMonthday(expanded), cur);
        SearchIsValid(ByWeekday(expanded), cur);
        r := if Stamp(t1.value) < Stamp(t2.value) then t1 else t2;
      } else {
        r := Calc(cur, expanded);
        SearchIsValid(expanded, cur);
      }
      if r.Some? {
        cur := r.value;
      }
    }
  }
}
