/** Dates and times of the proleptic Gregorian calendar in UTC, and the arithmetic on them that
    the schedule search uses. */
module Calendar {

  datatype Date = Date(year: int, month: int, day: int)

  datatype DateTime = DateTime(date: Date, hour: int, minute: int, second: int)

  predicate IsLeap(year: int) {
    year % 400 == 0 || (year % 4 == 0 && year % 100 != 0)
  }

  const DAYS := [31, 28, 31, 30, 31, 30, 31, 31, 30, 31, 30, 31]

  function DaysIn(year: int, month: int): int
    requires 1 <= month <= 12
  {
    if month == 2 && IsLeap(year) then 29 else DAYS[month - 1]
  }

  predicate ValidDate(d: Date) {
    d.year >= 1 && 1 <= d.month <= 12 && 1 <= d.day <= DaysIn(d.year, d.month)
  }

  predicate Valid(d: DateTime) {
    ValidDate(d.date) && 0 <= d.hour < 24 && 0 <= d.minute < 60 && 0 <= d.second < 60
  }

  // ----- counting -----

  function DaysBeforeYear(year: int): int {
    var y := year - 1;
    365 * y + y / 4 - y / 100 + y / 400
  }

  function DaysBeforeMonth(year: int, month: int): int
    requires 1 <= month <= 12
    decreases month
  {
    if month == 1 then 0 else DaysBeforeMonth(year, month - 1) + DaysIn(year, month - 1)
  }

  /** 1 January of year 1, a Monday, is day 1. */
  function Ordinal(d: Date): int
    requires 1 <= d.month <= 12
  {
    DaysBeforeYear(d.year) + DaysBeforeMonth(d.year, d.month) + d.day
  }

  /** Sunday is 0. */
  function Weekday(d: Date): int
    requires 1 <= d.month <= 12
  {
    Ordinal(d) % 7
  }

  /** Seconds, from midnight of day 0. */
  function Stamp(d: DateTime): int
    requires 1 <= d.date.month <= 12
  {
    Ordinal(d.date) * 86400 + d.hour * 3600 + d.minute * 60 + d.second
  }

  // ----- order -----

  predicate DateLess(a: Date, b: Date) {
    a.year < b.year || (a.year == b.year && (a.month < b.month || (a.month == b.month && a.day < b.day)))
  }

  predicate Less(a: DateTime, b: DateTime) {
    || DateLess(a.date, b.date)
    || (a.date == b.date
        && (a.hour < b.hour
            || (a.hour == b.hour && (a.minute < b.minute || (a.minute == b.minute && a.second < b.second)))))
  }

  lemma FourthsAndHundredths(y: int)
    ensures (y + 1) / 4 == y / 4 + (if (y + 1) % 4 == 0 then 1 else 0)
    ensures (y + 1) / 100 == y / 100 + (if (y + 1) % 100 == 0 then 1 else 0)
    ensures (y + 1) / 400 == y / 400 + (if (y + 1) % 400 == 0 then 1 else 0)
  {
  }

  lemma CenturiesAreFourths(y: int)
    ensures y % 400 == 0 ==> y % 100 == 0
    ensures y % 100 == 0 ==> y % 4 == 0
  {
  }

  lemma YearLength(year: int)
    ensures DaysBeforeYear(year + 1) == DaysBeforeYear(year) + 365 + (if IsLeap(year) then 1 else 0)
  {
    FourthsAndHundredths(year - 1);
    CenturiesAreFourths(year);
  }

  lemma MonthsAddUp(year: int)
    ensures DaysBeforeMonth(year, 12) + 31 == 365 + (if IsLeap(year) then 1 else 0)
  {
    var february := DaysIn(year, 2);
    assert DaysBeforeMonth(year, 3) == 31 + february;
    assert DaysBeforeMonth(year, 5) == 92 + february;
    assert DaysBeforeMonth(year, 7) == 153 + february;
    assert DaysBeforeMonth(year, 9) == 215 + february;
    assert DaysBeforeMonth(year, 11) == 276 + february;
  }

  lemma {:induction false} MonthOrder(year: int, m: int, n: int)
    requires 1 <= m < n <= 12
    ensures DaysBeforeMonth(year, m) + DaysIn(year, m) <= DaysBeforeMonth(year, n)
    decreases n
  {
    if m < n - 1 {
      MonthOrder(year, m, n - 1);
    }
  }

  lemma {:induction false} YearOrder(y: int, z: int)
    requires y < z
    ensures DaysBeforeYear(y) + 365 + (if IsLeap(y) then 1 else 0) <= DaysBeforeYear(z)
    decreases z - y
  {
    YearLength(z - 1);
    if y < z - 1 {
      YearOrder(y, z - 1);
    }
  }

  /** The place of a day in its year. */
  lemma WithinYear(d: Date)
    requires ValidDate(d)
    ensures 1 <= DaysBeforeMonth(d.year, d.month) + d.day <= 365 + (if IsLeap(d.year) then 1 else 0)
  {
    MonthsAddUp(d.year);
    if d.month < 12 {
      MonthOrder(d.year, d.month, 12);
    }
    if d.month > 1 {
      MonthOrder(d.year, 1, d.month);
    }
  }

  lemma EarlierCountsLess(a: Date, b: Date)
    requires ValidDate(a) && ValidDate(b) && DateLess(a, b)
    ensures Ordinal(a) < Ordinal(b)
  {
    if a.year < b.year {
      WithinYear(a);
      WithinYear(b);
      YearOrder(a.year, b.year);
    } else if a.month < b.month {
      MonthOrder(a.year, a.month, b.month);
    }
  }

  /** Dates are counted in calendar order. */
  lemma DateOrder(a: Date, b: Date)
    requires ValidDate(a) && ValidDate(b)
    ensures DateLess(a, b) <==> Ordinal(a) < Ordinal(b)
    ensures a == b <==> Ordinal(a) == Ordinal(b)
  {
    if DateLess(a, b) {
      EarlierCountsLess(a, b);
    } else if DateLess(b, a) {
      EarlierCountsLess(b, a);
    } else {
      assert a == b;
    }
  }

  /** Times are stamped in calendar order. */
  lemma TimeOrder(a: DateTime, b: DateTime)
    requires Valid(a) && Valid(b)
    ensures Less(a, b) <==> Stamp(a) < Stamp(b)
    ensures a == b <==> Stamp(a) == Stamp(b)
  {
    DateOrder(a.date, b.date);
  }

  // ----- the calendar is the Gregorian one -----

  /** Days before a month, counted from March in five-month cycles of 153 days. */
  function DaysSinceMarch(m: int): int {
    (153 * (if m > 2 then m - 3 else m + 9) + 2) / 5
  }

  /** The years are counted from March too, so that the leap day is the last of its year. */
  function GregorianDay(d: Date): int {
    var y := if d.month > 2 then d.year else d.year - 1;
    365 * y + y / 4 - y / 100 + y / 400 + DaysSinceMarch(d.month) + d.day - 306
  }

  lemma MonthTable(year: int)
    ensures var leap := if IsLeap(year) then 1 else 0;
            && DaysBeforeMonth(year, 1) == 0 && DaysBeforeMonth(year, 2) == 31
            && DaysBeforeMonth(year, 3) == 59 + leap && DaysBeforeMonth(year, 4) == 90 + leap
            && DaysBeforeMonth(year, 5) == 120 + leap && DaysBeforeMonth(year, 6) == 151 + leap
            && DaysBeforeMonth(year, 7) == 181 + leap && DaysBeforeMonth(year, 8) == 212 + leap
            && DaysBeforeMonth(year, 9) == 243 + leap && DaysBeforeMonth(year, 10) == 273 + leap
            && DaysBeforeMonth(year, 11) == 304 + leap && DaysBeforeMonth(year, 12) == 334 + leap
  {
    assert DaysBeforeMonth(year, 3) == 31 + DaysIn(year, 2);
    assert DaysBeforeMonth(year, 6) == 120 + DaysIn(year, 2) + 3;
    assert DaysBeforeMonth(year, 9) == 243 + DaysIn(year, 2) - 28;
  }

  /** Days are numbered as the closed formula for the Gregorian calendar numbers them. */
  lemma OrdinalIsGregorian(d: Date)
    requires ValidDate(d)
    ensures Ordinal(d) == GregorianDay(d)
  {
    MonthTable(d.year);
    YearLength(d.year);
  }

  // ----- arithmetic -----

  function FirstOfNextMonth(d: Date): Date {
    if d.month == 12 then Date(d.year + 1, 1, 1) else Date(d.year, d.month + 1, 1)
  }

  lemma NextMonthCounts(d: Date)
    requires ValidDate(d)
    ensures ValidDate(FirstOfNextMonth(d))
    ensures Ordinal(FirstOfNextMonth(d)) == Ordinal(d) + (DaysIn(d.year, d.month) - d.day) + 1
  {
    if d.month == 12 {
      MonthsAddUp(d.year);
      YearLength(d.year);
    }
  }

  function PlusDays(d: Date, n: int): Date
    requires ValidDate(d) && n >= 0
    decreases n
  {
    var left := DaysIn(d.year, d.month) - d.day;
    if n <= left then d.(day := d.day + n) else PlusDays(FirstOfNextMonth(d), n - left - 1)
  }

  lemma {:induction false} PlusDaysCounts(d: Date, n: int)
    requires ValidDate(d) && n >= 0
    ensures ValidDate(PlusDays(d, n)) && Ordinal(PlusDays(d, n)) == Ordinal(d) + n
    decreases n
  {
    var left := DaysIn(d.year, d.month) - d.day;
    if n > left {
      NextMonthCounts(d);
      PlusDaysCounts(FirstOfNextMonth(d), n - left - 1);
    }
  }

  lemma ModuloSeven(o: int, n: int)
    ensures (o + n) % 7 == (o % 7 + n) % 7
  {
  }

  lemma Epoch()
    ensures Ordinal(Date(1970, 1, 1)) == 719163 && Weekday(Date(1970, 1, 1)) == 4
  {
    OrdinalIsGregorian(Date(1970, 1, 1));
  }

  /** Weeks go on without a break, and 1 January 1970 was a Thursday. */
  lemma WeekdaysGoRound(d: Date, n: int)
    requires ValidDate(d) && n >= 0
    ensures ValidDate(PlusDays(d, n)) && Weekday(PlusDays(d, n)) == (Weekday(d) + n) % 7
    ensures Weekday(Date(1970, 1, 1)) == 4
  {
    PlusDaysCounts(d, n);
    ModuloSeven(Ordinal(d), n);
    Epoch();
  }

  function PlusHours(d: DateTime, n: int): DateTime
    requires Valid(d) && n >= 0
  {
    DateTime(PlusDays(d.date, (d.hour + n) / 24), (d.hour + n) % 24, d.minute, d.second)
  }

  lemma PlusHoursCounts(d: DateTime, n: int)
    requires Valid(d) && n >= 0
    ensures Valid(PlusHours(d, n)) && Stamp(PlusHours(d, n)) == Stamp(d) + 3600 * n
  {
    PlusDaysCounts(d.date, (d.hour + n) / 24);
  }

  function PlusMinutes(d: DateTime, n: int): DateTime
    requires Valid(d) && n >= 0
  {
    PlusHours(d, (d.minute + n) / 60).(minute := (d.minute + n) % 60)
  }

  lemma PlusMinutesCounts(d: DateTime, n: int)
    requires Valid(d) && n >= 0
    ensures Valid(PlusMinutes(d, n)) && Stamp(PlusMinutes(d, n)) == Stamp(d) + 60 * n
  {
    PlusHoursCounts(d, (d.minute + n) / 60);
  }

  function PlusSeconds(d: DateTime, n: int): DateTime
    requires Valid(d) && n >= 0
  {
    PlusMinutes(d, (d.second + n) / 60).(second := (d.second + n) % 60)
  }

  lemma PlusSecondsCounts(d: DateTime, n: int)
    requires Valid(d) && n >= 0
    ensures Valid(PlusSeconds(d, n)) && Stamp(PlusSeconds(d, n)) == Stamp(d) + n
  {
    PlusMinutesCounts(d, (d.second + n) / 60);
  }

  /** The first of the month `n` months on. */
  function FirstOfMonth(d: Date, n: int): Date {
    Date(d.year + (d.month - 1 + n) / 12, (d.month - 1 + n) % 12 + 1, 1)
  }
}
