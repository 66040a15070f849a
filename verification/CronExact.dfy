/** When the search is right: the exact conditions, on the lists of an expression, under which a
    search finds the least time, and under which it finds one at all. */
module CronExact {
  import opened SystemTables
  import opened Calendar
  import opened Cron

  // ----- when days are lost -----

  function Pick(f: Field): int
    requires f.Values? ==> |f.list| > 0
  {
    if f.Any? then 0 else f.list[0]
  }

  lemma PickOk(f: Field, hi: int)
    requires FieldOk(f, 0, hi) && hi >= 0
    ensures Has(f, Pick(f)) && 0 <= Pick(f) <= hi
  {
  }

  /** The first time of a day that the time fields allow. */
  function FirstOn(e: Expression, d: Date): DateTime
    requires Expanded(e)
  {
    DateTime(d, Pick(e.hour), Pick(e.minute), if e.second.Some? then Pick(e.second.value) else 0)
  }

  lemma FirstOnMatches(e: Expression, d: Date)
    requires Expanded(e) && ValidDate(d)
    requires Has(e.month, d.month) && Has(e.day, d.day) && Has(e.dow, Weekday(d))
    ensures Valid(FirstOn(e, d)) && Matches(e, FirstOn(e, d))
  {
    PickOk(e.hour, 23);
    PickOk(e.minute, 59);
    if e.second.Some? {
      PickOk(e.second.value, 59);
    }
  }

  /** The time before the last of February. */
  function BeforeLast(e: Expression, year: int): DateTime {
    var last := Date(year, 2, DaysIn(year, 2));
    if e.second.Some? then DateTime(last, 23, 59, 58) else DateTime(last, 23, 58, 0)
  }

  lemma StartsOnLast(e: Expression, year: int)
    requires year >= 1
    ensures Valid(BeforeLast(e, year)) && StartOf(e, BeforeLast(e, year)) == LastOfFebruary(e, year)
    ensures Stamp(BeforeLast(e, year)) < Stamp(LastOfFebruary(e, year))
  {
  }

  /** From the last of February the search goes past the first listed day of March. */
  lemma LandsTooFar(e: Expression, year: int) returns (landing: DateTime)
    requires Expanded(e) && Has(e.month, 2) && year >= 1
    requires !Lossless(e.day, DaysIn(year, 2))
    ensures e.day.Values? && 1 <= e.day.list[0] < landing.date.day <= 3
    ensures landing == Midnight(Date(year, 3, landing.date.day))
    ensures Valid(LastOfFebruary(e, year)) && Jump(e, LastOfFebruary(e, year)) == Some(landing)
  {
    var length := DaysIn(year, 2);
    var n := Diff(e.day, length, length);
    assert DayDiff(e, Date(year, 2, length)) == n;
    assert n > e.day.list[0] && length + n in e.day.list;
    landing := Midnight(Date(year, 3, n));
  }

  /** The search from `now` finds nothing, or only a time later than the matching time `x`. */
  ghost predicate Misses(e: Expression, now: DateTime, x: DateTime)
    requires Expanded(e)
  {
    && Valid(now) && Valid(x) && Matches(e, x) && Stamp(now) < Stamp(x)
    && x.date.year <= StartOf(e, now).date.year + MAX_YEARS
    && match Search(e, now)
       case None => true
       case Some(t) => Valid(t) && Stamp(x) < Stamp(t)
  }

  /** A day list that is not lossless at a February makes the search miss a time in March. */
  lemma LosesADay(e: Expression, year: int) returns (now: DateTime, x: DateTime)
    requires Expanded(e) && e.dow.Any? && Has(e.month, 2) && Has(e.month, 3)
    requires year >= 1 && !Lossless(e.day, DaysIn(year, 2))
    ensures now == BeforeLast(e, year) && e.day.Values? && x.date == Date(year, 3, e.day.list[0])
    ensures Misses(e, now, x)
  {
    now := BeforeLast(e, year);
    StartsOnLast(e, year);
    var start := LastOfFebruary(e, year);
    var landing := LandsTooFar(e, year);
    var day := Date(year, 3, e.day.list[0]);
    FirstOnMatches(e, day);
    x := FirstOn(e, day);
    TimeOrder(now, x);
    TimeOrder(x, landing);
    assert SearchFrom(e, start, year) == SearchFrom(e, landing, year);
    SearchGoesForward(e, landing, year);
  }

  /** The exact condition. When at most one of the two day fields is restricted, which is how it
      is always called, the search finds the least matching time from every start if and only
      if the listed days are safe. */
  lemma SearchIsRightIffDaysSafe(e: Expression)
    requires Expanded(e) && (e.day.Any? || e.dow.Any?)
    ensures (forall now :: Valid(now) ==> IsNext(e, now, Search(e, now))) <==> DaysSafe(e)
  {
    if DaysSafe(e) {
      forall now | Valid(now)
        ensures IsNext(e, now, Search(e, now))
      {
        SearchFindsNext(e, now);
      }
    } else {
      var now, x := LosesADay(e, if !Lossless(e.day, 28) then 2001 else 2004);
      assert Misses(e, now, x);
    }
  }

  // ----- when there is no time at all -----

  predicate HasAny(f: Field, months: seq<int>) {
    exists i | 0 <= i < |months| :: Has(f, months[i])
  }

  const LONG := [1, 3, 5, 7, 8, 10, 12]
  const MIDDLE := [4, 6, 9, 11]

  /** The length, in leap years, of the longest month listed. */
  function LongestMonth(f: Field): int {
    if HasAny(f, LONG) then 31 else if HasAny(f, MIDDLE) then 30 else 29
  }

  lemma NoMonthIsLonger(f: Field, year: int, month: int)
    requires 1 <= month <= 12 && Has(f, month)
    ensures DaysIn(year, month) <= LongestMonth(f)
  {
    if month in LONG {
      var i :| 0 <= i < |LONG| && LONG[i] == month;
    } else if month != 2 {
      assert month in MIDDLE;
      var i :| 0 <= i < |MIDDLE| && MIDDLE[i] == month;
    }
  }

  lemma SomeMonthIsAsLong(f: Field, year: int) returns (month: int)
    requires FieldOk(f, 1, 12) && IsLeap(year)
    ensures 1 <= month <= 12 && Has(f, month) && DaysIn(year, month) == LongestMonth(f)
  {
    if HasAny(f, LONG) {
      var i :| 0 <= i < |LONG| && Has(f, LONG[i]);
      month := LONG[i];
    } else if HasAny(f, MIDDLE) {
      var i :| 0 <= i < |MIDDLE| && Has(f, MIDDLE[i]);
      month := MIDDLE[i];
    } else {
      month := 2;
      OnlyFebruary(f);
    }
  }

  lemma OnlyFebruary(f: Field)
    requires FieldOk(f, 1, 12) && !HasAny(f, LONG) && !HasAny(f, MIDDLE)
    ensures Has(f, 2)
  {
    var m := if f.Any? then 1 else f.list[0];
    assert Has(f, m);
    assert LONG[0] == 1 && LONG[1] == 3 && LONG[2] == 5 && LONG[3] == 7;
    assert LONG[4] == 8 && LONG[5] == 10 && LONG[6] == 12;
    assert MIDDLE[0] == 4 && MIDDLE[1] == 6 && MIDDLE[2] == 9 && MIDDLE[3] == 11;
  }

  /** The first listed day is beyond the end of every listed month. */
  predicate NoMonthday(e: Expression)
    requires Expanded(e)
  {
    e.day.Values? && e.day.list[0] > LongestMonth(e.month)
  }

  /** No weekday is listed, which leaves 7. */
  predicate NoWeekday(e: Expression) {
    forall w | 0 <= w < 7 :: !Has(e.dow, w)
  }

  lemma NextLeapYear(year: int) returns (leap: int)
    ensures year < leap <= year + 8 && IsLeap(leap)
  {
    leap := year + 4 - year % 4;
    if !IsLeap(leap) {
      CenturiesAreFourths(leap);
      leap := leap + 4;
    }
  }

  /** In a leap year there is a matching time that is not lost. */
  lemma SomeMonthday(e: Expression, year: int) returns (x: DateTime)
    requires Expanded(e) && e.dow.Any? && !NoMonthday(e) && IsLeap(year) && year >= 1
    ensures Valid(x) && Matches(e, x) && x.date.year == year && !Lost(e, x)
  {
    var month := SomeMonthIsAsLong(e.month, year);
    var day := if e.day.Any? then 1 else e.day.list[0];
    assert Has(e.day, day);
    if month == 3 && e.day.Values? && day < Diff(e.day, 29, 29) {
      day := 29 + Diff(e.day, 29, 29);
      assert day in e.day.list;
    }
    FirstOnMatches(e, Date(year, month, day));
    x := FirstOn(e, Date(year, month, day));
  }

  lemma WeekdayAhead(o: int, w: int)
    requires 0 <= w < 7
    ensures (o + (w - o % 7 + 7) % 7) % 7 == w
  {
  }

  lemma SomeWeekday(e: Expression, year: int) returns (x: DateTime)
    requires Expanded(e) && e.day.Any? && !NoWeekday(e) && year >= 1
    ensures Valid(x) && Matches(e, x) && x.date.year == year
  {
    var w :| 0 <= w < 7 && Has(e.dow, w);
    var month := if e.month.Any? then 1 else e.month.list[0];
    assert Has(e.month, month);
    var first := Date(year, month, 1);
    var day := first.(day := 1 + (w - Weekday(first) + 7) % 7);
    WeekdayAhead(Ordinal(first), w);
    assert Ordinal(day) == Ordinal(first) + (w - Weekday(first) + 7) % 7;
    FirstOnMatches(e, day);
    x := FirstOn(e, day);
  }

  /** A search fails exactly if no listed month has the first listed day, or no weekday is listed;
      from which start does not matter. */
  lemma SearchFailsIff(e: Expression, now: DateTime)
    requires Expanded(e) && (e.day.Any? || e.dow.Any?) && Valid(now)
    ensures Search(e, now).None? <==> NoMonthday(e) || NoWeekday(e)
  {
    StartMissesNone(e, now, now);
    var start := StartOf(e, now);
    SearchGoesForward(e, start, start.date.year);
    if Search(e, now).Some? {
      var t := Search(e, now).value;
      NoMonthIsLonger(e.month, t.date.year, t.date.month);
      assert Has(e.dow, Weekday(t.date));
    } else if !NoMonthday(e) && !NoWeekday(e) {
      var year := NextLeapYear(start.date.year);
      var x;
      if e.dow.Any? {
        x := SomeMonthday(e, year);
      } else {
        x := SomeWeekday(e, year);
      }
      TimeOrder(Floor(e, start), x);
      SearchMisses(e, start, start.date.year, x);
    }
  }
}
