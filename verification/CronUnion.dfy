/** The next time of an expression whose two day fields may both be restricted, and exactly when
    it is the right one. */
module CronUnion {
  import opened SystemTables
  import opened Calendar
  import opened Cron
  import opened CronExact

  // ----- what an expression means -----

  predicate BothDays(e: Expression) {
    e.day.Values? && e.dow.Values?
  }

  /** When both the day of the month and the day of the week are restricted, either will do
      (crontab, INPUT FILES, of IEEE Std 1003.1-2017). */
  predicate MatchesCrontab(e: Expression, x: DateTime)
    requires 1 <= x.date.month <= 12
  {
    && Has(e.month, x.date.month) && Has(e.hour, x.hour) && Has(e.minute, x.minute)
    && (if e.second.Some? then Has(e.second.value, x.second) else x.second == 0)
    && (if BothDays(e) then Has(e.day, x.date.day) || Has(e.dow, Weekday(x.date))
        else Has(e.day, x.date.day) && Has(e.dow, Weekday(x.date)))
  }

  /** The two expressions of which a union is made. */
  function ByMonthday(e: Expression): Expression {
    e.(dow := Any)
  }

  function ByWeekday(e: Expression): Expression {
    e.(day := Any)
  }

  lemma UnionMatches(e: Expression, x: DateTime)
    requires BothDays(e) && Valid(x)
    ensures MatchesCrontab(e, x) <==> Matches(ByMonthday(e), x) || Matches(ByWeekday(e), x)
  {
  }

  ghost predicate LeastAfter(e: Expression, now: DateTime, t: DateTime)
    requires Valid(now)
  {
    && Valid(t) && MatchesCrontab(e, t) && Stamp(now) < Stamp(t)
    && forall x :: Valid(x) && MatchesCrontab(e, x) && Stamp(now) < Stamp(x) ==> Stamp(t) <= Stamp(x)
  }

  /** Of two searches the earlier result, provided both have one. */
  function Next(e: Expression, now: DateTime): Option<DateTime>
    requires Expanded(e) && Valid(now)
  {
    if !BothDays(e) then Search(e, now)
    else
      var t1, t2 := Search(ByMonthday(e), now), Search(ByWeekday(e), now);
      if t1.None? || t2.None? then None
      else
        SearchIsValid(ByMonthday(e), now);
        SearchIsValid(ByWeekday(e), now);
        Some(if Stamp(t1.value) < Stamp(t2.value) then t1.value else t2.value)
  }

  lemma SearchIsValid(e: Expression, now: DateTime)
    requires Expanded(e) && Valid(now)
    ensures Search(e, now).Some? ==> Valid(Search(e, now).value) && Stamp(now) < Stamp(Search(e, now).value)
  {
    StartMissesNone(e, now, now);
    SearchGoesForward(e, StartOf(e, now), StartOf(e, now).date.year);
  }

  /** Sunday may be written as 0 or as 7. */
  predicate NamesWeekday(f: Field, w: int) {
    Has(f, w) || (w == 0 && Has(f, 7))
  }

  /** Expansion of six-field expressions leaves 7 in the list, where it stands for no day: the
      weekdays searched for are the ones written if and only if a 7 has a 0 beside it. */
  lemma SundayAsSeven(f: Field)
    ensures (forall d :: ValidDate(d) ==> (Has(f, Weekday(d)) <==> NamesWeekday(f, Weekday(d))))
            <==> (Has(f, 7) ==> Has(f, 0))
  {
    var sunday := Date(1, 1, 7);
    assert ValidDate(sunday) && Weekday(sunday) == 0;
  }

  // ----- when it fails -----

  /** The iterator fails exactly if no listed month has the first listed day or no weekday is
      listed; for a union, either is enough, whatever the other has. */
  lemma NextFailsIff(e: Expression, now: DateTime)
    requires Expanded(e) && Valid(now)
    ensures Next(e, now).None? <==> NoMonthday(e) || NoWeekday(e)
  {
    if BothDays(e) {
      SearchFailsIff(ByMonthday(e), now);
      SearchFailsIff(ByWeekday(e), now);
      assert Has(Any, 0);
    } else {
      SearchFailsIff(e, now);
    }
  }

  const THIRTIETH := Expression(Values([0]), Values([0]), Values([30]), Values([2]), Values([1]), None)

  lemma ThirtiethIsExpanded()
    ensures Expanded(THIRTIETH) && NoMonthday(THIRTIETH)
  {
    assert LONG == [1, 3, 5, 7, 8, 10, 12] && MIDDLE == [4, 6, 9, 11];
  }

  /** Midnight on the 30th, or on Mondays, of February: the iterator fails from every start,
      although there are Mondays. */
  lemma ThirtiethOfFebruary(now: DateTime)
    requires Valid(now)
    ensures Expanded(THIRTIETH) && Next(THIRTIETH, now).None?
    ensures MatchesCrontab(THIRTIETH, Midnight(Date(2021, 2, 1)))
  {
    ThirtiethIsExpanded();
    NextFailsIff(THIRTIETH, now);
    FirstOfFebruary();
  }

  lemma FirstOfFebruary()
    ensures Weekday(Date(2021, 2, 1)) == 1
  {
    assert DaysBeforeYear(2021) == 737790;
  }

  // ----- when it is right -----

  /** The least matching time, or none because the next 50 years have none. */
  ghost predicate Right(e: Expression, now: DateTime, r: Option<DateTime>)
    requires Valid(now)
  {
    match r
    case Some(t) => LeastAfter(e, now, t)
    case None =>
      forall x :: Valid(x) && MatchesCrontab(e, x) && Stamp(now) < Stamp(x) ==>
        x.date.year > StartOf(e, now).date.year + MAX_YEARS
  }

  /** The last minute, or second, of a day is a listed one. */
  predicate EndsDay(e: Expression) {
    Has(e.hour, 23) && Has(e.minute, 59) && (e.second.Some? ==> Has(e.second.value, 59))
  }

  /** The weekday `k` days after `w` is listed. */
  predicate ListedAfter(e: Expression, w: int, k: int) {
    Has(e.dow, (w + k) % 7)
  }

  /** When February ends on weekday `w`, a listed weekday comes in time to make up for the first
      listed day of March: on one of the days up to it, or at the end of February itself. */
  predicate Covered(e: Expression, w: int)
    requires BothDays(e) && |e.day.list| > 0
  {
    (exists k | 1 <= k <= e.day.list[0] :: ListedAfter(e, w, k)) || (Has(e.dow, w) && EndsDay(e))
  }

  predicate AlwaysCovered(e: Expression)
    requires BothDays(e) && |e.day.list| > 0
  {
    forall w | 0 <= w < 7 :: Covered(e, w)
  }

  /** The exact condition, on the lists alone. Of a union, both alternatives must have times or
      neither, and days lost in March must be covered by weekdays. */
  predicate Exact(e: Expression)
    requires Expanded(e)
  {
    if !BothDays(e) then DaysSafe(e)
    else if NoMonthday(e) || NoWeekday(e) then NoMonthday(e) && NoWeekday(e)
    else DaysSafe(e) || AlwaysCovered(e)
  }

  /** The days of March follow the last of February. */
  lemma MarchWeekdays(year: int, k: int)
    requires year >= 1 && 1 <= k <= 31
    ensures Weekday(Date(year, 3, k)) == (Weekday(Date(year, 2, DaysIn(year, 2))) + k) % 7
  {
    var last := Date(year, 2, DaysIn(year, 2));
    NextMonthCounts(last);
    DaysLater(Date(year, 3, 1), Date(year, 3, k));
    WeekdayLater(Ordinal(last), k);
  }

  lemma DaysLater(first: Date, d: Date)
    requires 1 <= first.month <= 12 && d.year == first.year && d.month == first.month
    ensures Ordinal(d) == Ordinal(first) + d.day - first.day
  {
  }

  lemma WeekdayLater(o: int, k: int)
    ensures (o + k) % 7 == (o % 7 + k) % 7
  {
  }

  lemma CoveredInMarch(e: Expression, x: DateTime, k: int) returns (y: DateTime)
    requires Expanded(e) && BothDays(e) && Valid(x) && Matches(ByMonthday(e), x) && x.date.month == 3
    requires 1 <= k <= x.date.day && ListedAfter(e, Weekday(Date(x.date.year, 2, DaysIn(x.date.year, 2))), k)
    ensures Valid(y) && Matches(ByWeekday(e), y) && Stamp(LastOfFebruary(e, x.date.year)) <= Stamp(y) <= Stamp(x)
  {
    MarchWeekdays(x.date.year, k);
    y := x.(date := Date(x.date.year, 3, k));
    TimeOrder(LastOfFebruary(e, x.date.year), y);
    TimeOrder(y, x);
  }

  lemma CoveredAtTheEnd(e: Expression, x: DateTime)
    requires Expanded(e) && BothDays(e) && Valid(x) && x.date.month == 3 && Has(e.month, 2) && EndsDay(e)
    requires Has(e.dow, Weekday(Date(x.date.year, 2, DaysIn(x.date.year, 2))))
    ensures var y := LastOfFebruary(e, x.date.year);
            Valid(y) && Matches(ByWeekday(e), y) && Stamp(y) <= Stamp(x)
  {
    TimeOrder(LastOfFebruary(e, x.date.year), x);
  }

  /** A lost time is preceded, from the same start on, by a time of a listed weekday. */
  lemma CoveredInTime(e: Expression, d: DateTime, x: DateTime) returns (y: DateTime)
    requires Expanded(e) && BothDays(e) && AlwaysCovered(e)
    requires Valid(d) && Valid(x) && Matches(ByMonthday(e), x) && LostFrom(ByMonthday(e), d, x)
    ensures Valid(y) && Matches(ByWeekday(e), y) && Stamp(Floor(e, d)) <= Stamp(y) <= Stamp(x)
  {
    var w := Weekday(Date(x.date.year, 2, DaysIn(x.date.year, 2)));
    assert Covered(e, w);
    assert e.day.list[0] <= x.date.day;
    if k :| 1 <= k <= e.day.list[0] && ListedAfter(e, w, k) {
      y := CoveredInMarch(e, x, k);
    } else {
      CoveredAtTheEnd(e, x);
      y := LastOfFebruary(e, x.date.year);
    }
  }

  lemma ExactUnionIsRight(e: Expression, now: DateTime)
    requires Expanded(e) && BothDays(e) && Valid(now) && !NoMonthday(e) && !NoWeekday(e)
    requires DaysSafe(e) || AlwaysCovered(e)
    ensures Right(e, now, Next(e, now))
  {
    var e1, e2 := ByMonthday(e), ByWeekday(e);
    NextFailsIff(e, now);
    var start := StartOf(e, now);
    StartMissesNone(e1, now, now);
    SearchGoesForward(e1, start, start.date.year);
    SearchFindsNext(e2, now);
    var t := Next(e, now).value;
    UnionMatches(e, t);
    forall x | Valid(x) && MatchesCrontab(e, x) && Stamp(now) < Stamp(x)
      ensures Stamp(t) <= Stamp(x)
    {
      UnionMatches(e, x);
      if Matches(e1, x) {
        MonthdayInTime(e, now, x);
      }
    }
  }

  lemma MonthdayInTime(e: Expression, now: DateTime, x: DateTime)
    requires Expanded(e) && BothDays(e) && Valid(now) && (DaysSafe(e) || AlwaysCovered(e))
    requires Search(ByMonthday(e), now).Some? && Search(ByWeekday(e), now).Some?
    requires Valid(x) && Matches(ByMonthday(e), x) && Stamp(now) < Stamp(x)
    ensures var t1, t2 := Search(ByMonthday(e), now).value, Search(ByWeekday(e), now).value;
            Valid(t1) && Valid(t2) && (Stamp(t1) <= Stamp(x) || Stamp(t2) <= Stamp(x))
  {
    var e1, e2 := ByMonthday(e), ByWeekday(e);
    SearchIsValid(e1, now);
    SearchFindsNext(e2, now);
    var start := StartOf(e, now);
    StartMissesNone(e1, now, x);
    SearchMisses(e1, start, start.date.year, x);
    if LostFrom(e1, start, x) && !DaysSafe(e) {
      var y := CoveredInTime(e, start, x);
    } else {
      MonthdayNotLost(e, now, x);
    }
  }

  lemma MonthdayNotLost(e: Expression, now: DateTime, x: DateTime)
    requires Expanded(e) && Valid(now) && Valid(x) && Valid(StartOf(e, now)) && Matches(ByMonthday(e), x)
    requires DaysSafe(e) || !LostFrom(ByMonthday(e), StartOf(e, now), x)
    ensures !LostFrom(ByMonthday(e), StartOf(e, now), x)
  {
    if DaysSafe(e) {
      SafeDaysLoseNone(ByMonthday(e), x);
    }
  }

  // ----- when it is wrong -----

  /** A year whose February has `length` days and ends on weekday `w`. */
  function YearWith(length: int, w: int): int
    requires 0 <= w < 7
  {
    if length == 28 then [2010, 2005, 2006, 2001, 2002, 2003, 2009][w]
    else [2004, 2016, 2028, 2012, 2024, 2008, 2020][w]
  }

  lemma YearWithIs(length: int, w: int)
    requires 28 <= length <= 29 && 0 <= w < 7
    ensures var year := YearWith(length, w);
            year >= 1 && DaysIn(year, 2) == length && Weekday(Date(year, 2, length)) == w
  {
    var year := YearWith(length, w);
    assert Ordinal(Date(year, 2, length)) == DaysBeforeYear(year) + 31 + length;
    if length == 28 {
      CommonYears();
    } else {
      LeapYears();
    }
  }

  lemma CommonYears()
    ensures (DaysBeforeYear(2010) + 59) % 7 == 0 && (DaysBeforeYear(2005) + 59) % 7 == 1
    ensures (DaysBeforeYear(2006) + 59) % 7 == 2 && (DaysBeforeYear(2001) + 59) % 7 == 3
    ensures (DaysBeforeYear(2002) + 59) % 7 == 4 && (DaysBeforeYear(2003) + 59) % 7 == 5
    ensures (DaysBeforeYear(2009) + 59) % 7 == 6
  {
  }

  lemma LeapYears()
    ensures (DaysBeforeYear(2004) + 60) % 7 == 0 && (DaysBeforeYear(2016) + 60) % 7 == 1
    ensures (DaysBeforeYear(2028) + 60) % 7 == 2 && (DaysBeforeYear(2012) + 60) % 7 == 3
    ensures (DaysBeforeYear(2024) + 60) % 7 == 4 && (DaysBeforeYear(2008) + 60) % 7 == 5
    ensures (DaysBeforeYear(2020) + 60) % 7 == 6
  {
  }

  /** A time of a listed weekday from the last of February to the first listed day of March
      means that the weekday February ends on is covered. */
  lemma WeekdayThenCovers(e: Expression, year: int, z: DateTime)
    requires Expanded(e) && BothDays(e) && year >= 1 && 1 <= e.day.list[0] <= 3
    requires Valid(z) && Matches(ByWeekday(e), z) && !Less(z, LastOfFebruary(e, year))
    requires !DateLess(Date(year, 3, e.day.list[0]), z.date)
    ensures Covered(e, Weekday(Date(year, 2, DaysIn(year, 2))))
  {
    var w := Weekday(Date(year, 2, DaysIn(year, 2)));
    if z.date.month == 2 {
      assert z.date == Date(year, 2, DaysIn(year, 2));
    } else {
      MarchWeekdays(year, z.date.day);
      assert ListedAfter(e, w, z.date.day);
    }
  }

  /** When nothing covers the weekday February ends on, the search by weekday comes too late. */
  lemma WeekdayTooLate(e: Expression, year: int, x: DateTime)
    requires Expanded(e) && BothDays(e) && year >= 1 && 1 <= e.day.list[0] <= 3
    requires !Covered(e, Weekday(Date(year, 2, DaysIn(year, 2))))
    requires Valid(x) && x.date == Date(year, 3, e.day.list[0])
    ensures var now := BeforeLast(e, year);
            Valid(now) && match Search(ByWeekday(e), now)
                          case None => true
                          case Some(t) => Valid(t) && Stamp(x) < Stamp(t)
  {
    var e2, now := ByWeekday(e), BeforeLast(e, year);
    StartsOnLast(e, year);
    SearchGoesForward(e2, LastOfFebruary(e, year), year);
    if Search(e2, now).Some? {
      var t := Search(e2, now).value;
      TimeOrder(t, LastOfFebruary(e, year));
      TimeOrder(x, t);
      if Stamp(t) <= Stamp(x) {
        WeekdayThenCovers(e, year, t);
      }
    }
  }

  lemma LosesInUnion(e: Expression, w: int) returns (now: DateTime)
    requires Expanded(e) && BothDays(e) && !DaysSafe(e) && 0 <= w < 7 && !Covered(e, w)
    ensures Valid(now) && !Right(e, now, Next(e, now))
  {
    var length := if !Lossless(e.day, 28) then 28 else 29;
    var year := YearWith(length, w);
    YearWithIs(length, w);
    var x;
    now, x := LosesADay(ByMonthday(e), year);
    LosesADayEarly(e, length);
    WeekdayTooLate(e, year, x);
    UnionMatches(e, x);
  }

  lemma LosesADayEarly(e: Expression, length: int)
    requires Expanded(e) && e.day.Values? && 28 <= length <= 29 && !Lossless(e.day, length)
    ensures 1 <= e.day.list[0] <= 3
  {
    assert length + Diff(e.day, length, length) in e.day.list;
  }

  lemma FindsATime(e: Expression, now: DateTime) returns (t: DateTime)
    requires Expanded(e) && (e.day.Any? || e.dow.Any?) && Valid(now) && !NoMonthday(e) && !NoWeekday(e)
    ensures Valid(t) && Matches(e, t) && Stamp(now) < Stamp(t)
    ensures t.date.year <= StartOf(e, now).date.year + MAX_YEARS
  {
    SearchFailsIff(e, now);
    StartMissesNone(e, now, now);
    SearchGoesForward(e, StartOf(e, now), StartOf(e, now).date.year);
    t := Search(e, now).value;
  }

  /** One alternative has no time and the other has: the iterator fails all the same. */
  lemma FailsForNoReason(e: Expression) returns (now: DateTime)
    requires Expanded(e) && BothDays(e) && (NoMonthday(e) <==> !NoWeekday(e))
    ensures Valid(now) && !Right(e, now, Next(e, now))
  {
    now := Midnight(Date(2000, 1, 1));
    NextFailsIff(e, now);
    var t;
    if NoMonthday(e) {
      t := FindsATime(ByWeekday(e), now);
    } else {
      AnyDay();
      t := FindsATime(ByMonthday(e), now);
    }
    UnionMatches(e, t);
  }

  lemma AnyDay()
    ensures Has(Any, 0)
  {
  }

  lemma LosesAlone(e: Expression) returns (now: DateTime)
    requires Expanded(e) && !BothDays(e) && !DaysSafe(e)
    ensures Valid(now) && !Right(e, now, Next(e, now))
  {
    var x;
    now, x := LosesADay(e, if !Lossless(e.day, 28) then 2001 else 2004);
    assert Misses(e, now, x) && MatchesCrontab(e, x);
  }

  lemma ExactIsRight(e: Expression, now: DateTime)
    requires Expanded(e) && Exact(e) && Valid(now)
    ensures Right(e, now, Next(e, now))
  {
    if !BothDays(e) {
      SearchFindsNext(e, now);
    } else if NoMonthday(e) {
      NextFailsIff(e, now);
      forall x | Valid(x)
        ensures !MatchesCrontab(e, x)
      {
        NeverMatches(e, x);
      }
    } else {
      ExactUnionIsRight(e, now);
    }
  }

  lemma NeverMatches(e: Expression, x: DateTime)
    requires Expanded(e) && NoMonthday(e) && NoWeekday(e) && Valid(x)
    ensures !MatchesCrontab(e, x)
  {
    if Has(e.month, x.date.month) {
      NoMonthIsLonger(e.month, x.date.year, x.date.month);
    }
    assert !Has(e.dow, Weekday(x.date));
  }

  // ----- main result -----

  /** The iterator gives the least matching time from every start, and fails only when there is
      none, if and only if the lists of the expression satisfy `Exact`. */
  lemma NextIsRightIff(e: Expression)
    requires Expanded(e)
    ensures (forall now :: Valid(now) ==> Right(e, now, Next(e, now))) <==> Exact(e)
  {
    if Exact(e) {
      forall now | Valid(now)
        ensures Right(e, now, Next(e, now))
      {
        ExactIsRight(e, now);
      }
    } else if !BothDays(e) {
      var now := LosesAlone(e);
    } else if NoMonthday(e) || NoWeekday(e) {
      var now := FailsForNoReason(e);
    } else {
      var w :| 0 <= w < 7 && !Covered(e, w);
      var now := LosesInUnion(e, w);
    }
  }
}
