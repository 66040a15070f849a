/** The search for the next time a cron expression names. It skips ahead field by field, and is
    shown to find what looking at every second would find. */
module Cron {
  import opened SystemTables
  import opened Calendar

  // ----- expressions -----

  /** A field is a wildcard, or the sorted list of its values. */
  datatype Field = Any | Values(list: seq<int>)

  /** An expanded expression. With five fields there are no seconds. */
  datatype Expression = Expression(minute: Field, hour: Field, day: Field, month: Field, dow: Field,
                                   second: Option<Field>)

  predicate Has(f: Field, v: int) {
    f.Any? || v in f.list
  }

  ghost predicate Increasing(s: seq<int>) {
    forall i, j :: 0 <= i < j < |s| ==> s[i] < s[j]
  }

  ghost predicate FieldOk(f: Field, lo: int, hi: int) {
    f.Values? ==> |f.list| > 0 && Increasing(f.list) && lo <= f.list[0] && forall v :: v in f.list ==> lo <= v <= hi
  }

  /** What expansion delivers. Six-field expressions may hold Sunday as 7. */
  ghost predicate Expanded(e: Expression) {
    && FieldOk(e.minute, 0, 59) && FieldOk(e.hour, 0, 23) && FieldOk(e.day, 1, 31)
    && FieldOk(e.month, 1, 12) && FieldOk(e.dow, 0, 7)
    && (e.second.Some? ==> FieldOk(e.second.value, 0, 59))
  }

  predicate Matches(e: Expression, x: DateTime)
    requires 1 <= x.date.month <= 12
  {
    && Has(e.month, x.date.month) && Has(e.day, x.date.day) && Has(e.dow, Weekday(x.date))
    && Has(e.hour, x.hour) && Has(e.minute, x.minute)
    && (if e.second.Some? then Has(e.second.value, x.second) else x.second == 0)
  }

  // ----- the distance to the next value of a field -----

  function NearestFrom(x: int, toCheck: seq<int>, range: int, i: nat): int
    requires |toCheck| > 0 && i <= |toCheck|
    decreases |toCheck| - i
  {
    if i == |toCheck| then toCheck[0] - x + range
    else if toCheck[i] >= x then toCheck[i] - x
    else NearestFrom(x, toCheck, range, i + 1)
  }

  /** `_get_next_nearest_diff`. */
  method GetNextNearestDiff(x: int, toCheck: seq<int>, range: int) returns (diff: int)
    requires |toCheck| > 0
    ensures diff == NearestFrom(x, toCheck, range, 0)
  {
    for i := 0 to |toCheck|
      invariant NearestFrom(x, toCheck, range, 0) == NearestFrom(x, toCheck, range, i)
    {
      if toCheck[i] >= x {
        return toCheck[i] - x;
      }
    }
    return toCheck[0] - x + range;
  }

  lemma {:induction false} NearestMeans(x: int, toCheck: seq<int>, range: int, i: nat)
    requires |toCheck| > 0 && i <= |toCheck| && Increasing(toCheck)
    requires forall j :: 0 <= j < i ==> toCheck[j] < x
    ensures var n := NearestFrom(x, toCheck, range, i);
            && (forall v :: x <= v < x + n ==> v !in toCheck)
            && ((n >= 0 && x + n in toCheck)
                || (x + n == toCheck[0] + range && forall v :: v in toCheck ==> v < x))
    decreases |toCheck| - i
  {
    if i < |toCheck| && toCheck[i] < x {
      NearestMeans(x, toCheck, range, i + 1);
    }
  }

  /** How far to the next value of the field, going round at `range`; 0 when `x` is one. */
  function Diff(f: Field, x: int, range: int): (n: int)
    requires f.Values? ==> |f.list| > 0 && Increasing(f.list) && x < f.list[0] + range
    ensures n >= 0 && (n == 0 <==> Has(f, x))
    ensures forall v :: x <= v < x + n ==> !Has(f, v)
    ensures n > 0 ==> x + n in f.list || (x + n == f.list[0] + range && forall v :: v in f.list ==> v < x)
  {
    if f.Any? then 0
    else
      NearestMeans(x, f.list, range, 0);
      NearestFrom(x, f.list, range, 0)
  }

  /** Counting on from `p`, no position before the jump has a value of the field. */
  lemma CyclicSkip(f: Field, range: int, p: int, q: int)
    requires range == 7 || range == 24 || range == 60
    requires FieldOk(f, 0, range)
    requires p <= q < p + Diff(f, p % range, range)
    ensures !Has(f, q % range)
  {
    var x, j := p % range, q - p;
    if x + j < range {
      Remainder(p, j, range, 0);
    } else {
      var n := Diff(f, x, range);
      assert x + n in f.list ==> x + n <= range;
      assert f.list[0] in f.list;
      assert f.list[0] < x;
      Remainder(p, j, range, 1);
    }
  }

  lemma Remainder(p: int, j: int, range: int, k: int)
    requires range == 7 || range == 24 || range == 60
    requires 0 <= k <= 1 && 0 <= p % range + j - k * range < range
    ensures (p + j) % range == p % range + j - k * range
  {
    if range == 7 {
      Remainder7(p, j, k);
    } else if range == 24 {
      Remainder24(p, j, k);
    } else {
      Remainder60(p, j, k);
    }
  }

  lemma Remainder7(p: int, j: int, k: int)
    requires 0 <= p % 7 + j - k * 7 < 7
    ensures (p + j) % 7 == p % 7 + j - k * 7
  {
  }

  lemma Remainder24(p: int, j: int, k: int)
    requires 0 <= p % 24 + j - k * 24 < 24
    ensures (p + j) % 24 == p % 24 + j - k * 24
  {
  }

  lemma Remainder60(p: int, j: int, k: int)
    requires 0 <= p % 60 + j - k * 60 < 60
    ensures (p + j) % 60 == p % 60 + j - k * 60
  {
  }

  // ----- jumps -----

  function Midnight(d: Date): DateTime {
    DateTime(d, 0, 0, 0)
  }

  function MonthDiff(e: Expression, d: Date): (n: int)
    requires Expanded(e) && ValidDate(d)
  {
    Diff(e.month, d.month, 12)
  }

  function DayDiff(e: Expression, d: Date): int
    requires Expanded(e) && ValidDate(d)
  {
    Diff(e.day, d.day, DaysIn(d.year, d.month))
  }

  /** Where the first field that does not match sends the search; none when all match. */
  function Jump(e: Expression, d: DateTime): Option<DateTime>
    requires Expanded(e) && Valid(d)
  {
    var date := d.date;
    var n := MonthDiff(e, date);
    if n != 0 then Some(Midnight(FirstOfMonth(date, n))) else
    var n := DayDiff(e, date);
    if n != 0 then Some(Midnight(PlusDays(date, n))) else
    var n := Diff(e.dow, Weekday(date), 7);
    if n != 0 then Some(Midnight(PlusDays(date, n))) else
    var n := Diff(e.hour, d.hour, 24);
    if n != 0 then Some(PlusHours(d.(minute := 0, second := 0), n)) else
    var n := Diff(e.minute, d.minute, 60);
    if n != 0 then Some(PlusMinutes(d.(second := 0), n))
    else if e.second.None? then None
    else
      var n := Diff(e.second.value, d.second, 60);
      if n != 0 then Some(PlusSeconds(d, n)) else None
  }

  /** Without a seconds field times are whole minutes. */
  function Floor(e: Expression, d: DateTime): DateTime {
    if e.second.Some? then d else d.(second := 0)
  }

  /** No matching time lies before `d'` unless it lies before `d`. */
  ghost predicate SkipsNone(e: Expression, d: DateTime, d': DateTime)
    requires Valid(d) && Valid(d')
  {
    forall x :: Valid(x) && Stamp(Floor(e, d)) <= Stamp(x) < Stamp(d') ==> !Matches(e, x)
  }

  lemma MonthJumpsAhead(e: Expression, d: DateTime)
    requires Expanded(e) && Valid(d) && MonthDiff(e, d.date) != 0
    ensures var d' := Midnight(FirstOfMonth(d.date, MonthDiff(e, d.date)));
            Valid(d') && Stamp(d) < Stamp(d') && SkipsNone(e, d, d')
  {
    var n := MonthDiff(e, d.date);
    var first := FirstOfMonth(d.date, n);
    assert e.month.list[0] in e.month.list;
    assert n <= 12;
    assert DateLess(d.date, first);
    TimeOrder(d, Midnight(first));
    forall x | Valid(x) && Stamp(Floor(e, d)) <= Stamp(x) < Stamp(Midnight(first))
      ensures !Matches(e, x)
    {
      TimeOrder(x, Floor(e, d));
      TimeOrder(x, Midnight(first));
      MonthSkipped(e, d.date, x.date);
    }
  }

  lemma MonthSkipped(e: Expression, d: Date, x: Date)
    requires Expanded(e) && ValidDate(d) && ValidDate(x) && MonthDiff(e, d) != 0
    requires !DateLess(x, d) && DateLess(x, FirstOfMonth(d, MonthDiff(e, d)))
    ensures !Has(e.month, x.month)
  {
  }

  function Hours(x: DateTime): int
    requires Valid(x)
  {
    Ordinal(x.date) * 24 + x.hour
  }

  function Minutes(x: DateTime): int
    requires Valid(x)
  {
    Hours(x) * 60 + x.minute
  }

  lemma HoursAndMinutes(x: DateTime)
    requires Valid(x)
    ensures Hours(x) * 3600 <= Stamp(x) < (Hours(x) + 1) * 3600 && Hours(x) % 24 == x.hour
    ensures Minutes(x) * 60 <= Stamp(x) < (Minutes(x) + 1) * 60 && Minutes(x) % 60 == x.minute
    ensures Stamp(x) % 60 == x.second
  {
    LastPlace(Ordinal(x.date), x.hour);
    LastPlace(Hours(x), x.minute);
    LastPlace(Minutes(x), x.second);
  }

  lemma LastPlace(p: int, v: int)
    ensures 0 <= v < 24 ==> (p * 24 + v) % 24 == v
    ensures 0 <= v < 60 ==> (p * 60 + v) % 60 == v
  {
  }

  lemma HourJumpsAhead(e: Expression, d: DateTime)
    requires Expanded(e) && Valid(d) && Diff(e.hour, d.hour, 24) != 0
    ensures var d' := PlusHours(d.(minute := 0, second := 0), Diff(e.hour, d.hour, 24));
            Valid(d') && Stamp(d) < Stamp(d') && SkipsNone(e, d, d')
  {
    var n := Diff(e.hour, d.hour, 24);
    PlusHoursCounts(d.(minute := 0, second := 0), n);
    HoursAndMinutes(d);
    HoursAndMinutes(Floor(e, d));
    forall x | Valid(x) && Stamp(Floor(e, d)) <= Stamp(x) < Stamp(PlusHours(d.(minute := 0, second := 0), n))
      ensures !Matches(e, x)
    {
      HoursAndMinutes(x);
      CyclicSkip(e.hour, 24, Hours(d), Hours(x));
    }
  }

  lemma MinuteJumpsAhead(e: Expression, d: DateTime)
    requires Expanded(e) && Valid(d) && Diff(e.minute, d.minute, 60) != 0
    ensures var d' := PlusMinutes(d.(second := 0), Diff(e.minute, d.minute, 60));
            Valid(d') && Stamp(d) < Stamp(d') && SkipsNone(e, d, d')
  {
    var n := Diff(e.minute, d.minute, 60);
    PlusMinutesCounts(d.(second := 0), n);
    HoursAndMinutes(d);
    HoursAndMinutes(Floor(e, d));
    forall x | Valid(x) && Stamp(Floor(e, d)) <= Stamp(x) < Stamp(PlusMinutes(d.(second := 0), n))
      ensures !Matches(e, x)
    {
      HoursAndMinutes(x);
      CyclicSkip(e.minute, 60, Minutes(d), Minutes(x));
    }
  }

  lemma SecondJumpsAhead(e: Expression, d: DateTime)
    requires Expanded(e) && Valid(d) && e.second.Some? && Diff(e.second.value, d.second, 60) != 0
    ensures var d' := PlusSeconds(d, Diff(e.second.value, d.second, 60));
            Valid(d') && Stamp(d) < Stamp(d') && SkipsNone(e, d, d')
  {
    var n := Diff(e.second.value, d.second, 60);
    PlusSecondsCounts(d, n);
    HoursAndMinutes(d);
    forall x | Valid(x) && Stamp(Floor(e, d)) <= Stamp(x) < Stamp(PlusSeconds(d, n))
      ensures !Matches(e, x)
    {
      HoursAndMinutes(x);
      CyclicSkip(e.second.value, 60, Stamp(d), Stamp(x));
    }
  }

  lemma WeekdayJumpsAhead(e: Expression, d: DateTime)
    requires Expanded(e) && Valid(d) && Diff(e.dow, Weekday(d.date), 7) != 0
    ensures var d' := Midnight(PlusDays(d.date, Diff(e.dow, Weekday(d.date), 7)));
            Valid(d') && Stamp(d) < Stamp(d') && SkipsNone(e, d, d')
  {
    var n := Diff(e.dow, Weekday(d.date), 7);
    PlusDaysCounts(d.date, n);
    forall x | Valid(x) && Stamp(Floor(e, d)) <= Stamp(x) < Stamp(Midnight(PlusDays(d.date, n)))
      ensures !Matches(e, x)
    {
      CyclicSkip(e.dow, 7, Ordinal(d.date), Ordinal(x.date));
    }
  }

  // ----- the day of the month -----

  /** No listed day is lost when the search leaves a month of `length` days for a listed day the
      month does not have: the overshoot stops at or before the first listed day. */
  predicate Lossless(f: Field, length: int)
    requires FieldOk(f, 1, 31) && length >= 28
  {
    f.Any? || Diff(f, length, length) <= f.list[0]
  }

  /** Days are lost on leaving February only, and only if March counts. */
  predicate DaysSafe(e: Expression)
    requires Expanded(e)
  {
    Has(e.month, 2) && Has(e.month, 3) ==> Lossless(e.day, 28) && Lossless(e.day, 29)
  }

  /** Lists of days that every month has are safe. */
  lemma ShortDaysAreSafe(e: Expression)
    requires Expanded(e) && FieldOk(e.day, 1, 28)
    ensures DaysSafe(e)
  {
  }

  /** A time on a day of March before the one on which the search lands when it leaves February
      for a listed day that February does not have. */
  predicate Lost(e: Expression, x: DateTime)
    requires Expanded(e)
  {
    var length := DaysIn(x.date.year, 2);
    x.date.month == 3 && Has(e.month, 2) && e.day.Values? && x.date.day < Diff(e.day, length, length)
  }

  /** The last minute, or second, of February. */
  function LastOfFebruary(e: Expression, year: int): DateTime {
    DateTime(Date(year, 2, DaysIn(year, 2)), 23, 59, if e.second.Some? then 59 else 0)
  }

  lemma SafeDaysLoseNone(e: Expression, x: DateTime)
    requires Expanded(e) && DaysSafe(e) && Valid(x) && Matches(e, x)
    ensures !Lost(e, x)
  {
    assert e.day.Values? ==> e.day.list[0] <= x.date.day;
  }

  /** Going round to the first listed day passes no listed day. */
  lemma RoundPassesNone(e: Expression, d: Date, x: Date)
    requires Expanded(e) && ValidDate(d) && ValidDate(x) && DayDiff(e, d) != 0
    requires Has(e.day, x.day) && !DateLess(x, d)
    requires d.day + DayDiff(e, d) !in e.day.list
    ensures !DateLess(x, PlusDays(d, DayDiff(e, d)))
  {
    var length := DaysIn(d.year, d.month);
    assert e.day.list[0] in e.day.list;
    assert x.day in e.day.list;
    assert e.day.list[0] <= x.day < d.day;
    assert d.day + DayDiff(e, d) == e.day.list[0] + length;
    FromTheFirst(FirstOfNextMonth(d), x, e.day.list[0]);
  }

  lemma FromTheFirst(next: Date, x: Date, day: int)
    requires ValidDate(next) && ValidDate(x) && next.day == 1 && 1 <= day <= 31
    requires !DateLess(x, next) && x.day >= day
    ensures !DateLess(x, PlusDays(next, day - 1))
  {
    var length := DaysIn(next.year, next.month);
    if day > length {
      assert PlusDays(next, day - 1) == FirstOfNextMonth(next).(day := day - length);
    }
  }

  /** A jump to a listed day of the same month, or to the first of the next, passes none either. */
  lemma AheadPassesNone(e: Expression, d: Date, x: Date)
    requires Expanded(e) && ValidDate(d) && ValidDate(x) && DayDiff(e, d) != 0
    requires Has(e.day, x.day) && !DateLess(x, d)
    requires x.year == d.year && x.month == d.month
    ensures d.day + DayDiff(e, d) in e.day.list ==> d.day + DayDiff(e, d) <= x.day
  {
  }

  /** A matching day that the jump to the next listed day passes over is a lost one. */
  lemma DayPassedIsLost(e: Expression, d: Date, x: DateTime)
    requires Expanded(e) && ValidDate(d) && Valid(x) && Has(e.month, x.date.month) && Has(e.day, x.date.day)
    requires MonthDiff(e, d) == 0 && DayDiff(e, d) != 0
    requires !DateLess(x.date, d) && DateLess(x.date, PlusDays(d, DayDiff(e, d)))
    ensures d.month == 2 && x.date.year == d.year && Lost(e, x)
  {
    var n, length := DayDiff(e, d), DaysIn(d.year, d.month);
    if d.day + n !in e.day.list {
      RoundPassesNone(e, d, x.date);
    } else if x.date.year == d.year && x.date.month == d.month {
      AheadPassesNone(e, d, x.date);
    } else {
      var next := FirstOfNextMonth(d);
      assert !DateLess(x.date, next);
      if d.day + n > length {
        OvershootIsShort(e, d);
        assert PlusDays(d, n) == next.(day := d.day + n - length);
      }
    }
  }

  /** A listed day beyond the end of the month is at most three days into the next one, and as far
      as from the end of the month. */
  lemma OvershootIsShort(e: Expression, d: Date)
    requires Expanded(e) && ValidDate(d) && DayDiff(e, d) != 0
    requires d.day + DayDiff(e, d) > DaysIn(d.year, d.month) && d.day + DayDiff(e, d) in e.day.list
    ensures var length := DaysIn(d.year, d.month);
            var over := d.day + DayDiff(e, d) - length;
            1 <= over <= 3 && over == Diff(e.day, length, length) && (d.month != 2 ==> over == 1)
  {
    var n, length := DayDiff(e, d), DaysIn(d.year, d.month);
    var k := d.day + n;
    var m := Diff(e.day, length, length);
    assert !Has(e.day, length);
    assert k > length && Has(e.day, k);
    assert Has(e.day, length + m);
    assert !(length <= k < length + m);
    assert !(d.day <= length + m < d.day + n);
  }

  // ----- the search -----

  lemma JumpsForward(e: Expression, d: DateTime)
    requires Expanded(e) && Valid(d) && Jump(e, d).Some?
    ensures var d' := Jump(e, d).value;
            Valid(d') && Stamp(d) < Stamp(d') && Floor(e, d') == d'
  {
    var date := d.date;
    if MonthDiff(e, date) != 0 {
      MonthJumpsAhead(e, d);
    } else if DayDiff(e, date) != 0 {
      PlusDaysCounts(date, DayDiff(e, date));
    } else if Diff(e.dow, Weekday(date), 7) != 0 {
      WeekdayJumpsAhead(e, d);
    } else if Diff(e.hour, d.hour, 24) != 0 {
      HourJumpsAhead(e, d);
    } else if Diff(e.minute, d.minute, 60) != 0 {
      MinuteJumpsAhead(e, d);
    } else {
      SecondJumpsAhead(e, d);
    }
  }

  /** A matching time `x` that is lost, where the search has not left February behind. */
  ghost predicate LostFrom(e: Expression, d: DateTime, x: DateTime)
    requires Expanded(e) && Valid(d) && Valid(x)
  {
    Lost(e, x) && Stamp(Floor(e, d)) <= Stamp(LastOfFebruary(e, x.date.year))
  }

  lemma DayJumpPasses(e: Expression, d: DateTime, x: DateTime)
    requires Expanded(e) && Valid(d) && MonthDiff(e, d.date) == 0 && DayDiff(e, d.date) != 0
    requires Valid(x) && Matches(e, x) && ValidDate(PlusDays(d.date, DayDiff(e, d.date)))
    requires Stamp(Floor(e, d)) <= Stamp(x) < Stamp(Midnight(PlusDays(d.date, DayDiff(e, d.date))))
    ensures LostFrom(e, d, x)
  {
    DateOrder(x.date, d.date);
    DateOrder(x.date, PlusDays(d.date, DayDiff(e, d.date)));
    DayPassedIsLost(e, d.date, x);
    TimeOrder(LastOfFebruary(e, x.date.year), Floor(e, d));
  }

  /** The only matching times a jump of any field passes over are lost days of March. */
  lemma JumpPasses(e: Expression, d: DateTime, x: DateTime)
    requires Expanded(e) && Valid(d) && Jump(e, d).Some?
    requires Valid(x) && Matches(e, x) && Valid(Jump(e, d).value)
    requires Stamp(Floor(e, d)) <= Stamp(x) < Stamp(Jump(e, d).value)
    ensures LostFrom(e, d, x)
  {
    var date := d.date;
    if MonthDiff(e, date) != 0 {
      MonthJumpsAhead(e, d);
    } else if DayDiff(e, date) != 0 {
      DayJumpPasses(e, d, x);
    } else if Diff(e.dow, Weekday(date), 7) != 0 {
      WeekdayJumpsAhead(e, d);
    } else if Diff(e.hour, d.hour, 24) != 0 {
      HourJumpsAhead(e, d);
    } else if Diff(e.minute, d.minute, 60) != 0 {
      MinuteJumpsAhead(e, d);
    } else {
      SecondJumpsAhead(e, d);
    }
  }

  const MAX_YEARS := 50

  predicate InWindow(d: DateTime, currentYear: int) {
    -MAX_YEARS <= d.date.year - currentYear <= MAX_YEARS
  }

  function Horizon(currentYear: int): int {
    Stamp(Midnight(Date(currentYear + MAX_YEARS + 1, 1, 1)))
  }

  lemma WindowBeforeHorizon(d: DateTime, currentYear: int)
    requires Valid(d) && InWindow(d, currentYear)
    ensures Stamp(d) < Horizon(currentYear)
  {
    TimeOrder(d, Midnight(Date(currentYear + MAX_YEARS + 1, 1, 1)));
  }

  function Left(d: DateTime, currentYear: int): int
    requires Valid(d)
  {
    if InWindow(d, currentYear) then Horizon(currentYear) - Stamp(d) else 0
  }

  /** Jumps until every field matches or the window of years is left. */
  function SearchFrom(e: Expression, d: DateTime, currentYear: int): Option<DateTime>
    requires Expanded(e) && Valid(d)
    decreases Left(d, currentYear)
  {
    if !InWindow(d, currentYear) then None
    else
      match Jump(e, d)
      case None => Some(Floor(e, d))
      case Some(d') =>
        WindowBeforeHorizon(d, currentYear);
        JumpsForward(e, d);
        if InWindow(d', currentYear) then WindowBeforeHorizon(d', currentYear); SearchFrom(e, d', currentYear)
        else None
  }

  /** The first time looked at: the next second, or the next minute. */
  function StartOf(e: Expression, now: DateTime): DateTime
    requires Valid(now)
  {
    PlusSeconds(now, if e.second.Some? then 1 else 60)
  }

  function Search(e: Expression, now: DateTime): Option<DateTime>
    requires Expanded(e) && Valid(now)
  {
    PlusSecondsCounts(now, if e.second.Some? then 1 else 60);
    var start := StartOf(e, now);
    SearchFrom(e, start, start.date.year)
  }

  lemma {:induction false} SearchGoesForward(e: Expression, d: DateTime, currentYear: int)
    requires Expanded(e) && Valid(d)
    ensures var r := SearchFrom(e, d, currentYear);
            r.Some? ==> Valid(r.value) && Matches(e, r.value) && InWindow(r.value, currentYear)
                        && Stamp(Floor(e, d)) <= Stamp(r.value)
    decreases Left(d, currentYear)
  {
    if InWindow(d, currentYear) && Jump(e, d).Some? {
      var d' := Jump(e, d).value;
      WindowBeforeHorizon(d, currentYear);
      JumpsForward(e, d);
      if InWindow(d', currentYear) {
        WindowBeforeHorizon(d', currentYear);
        SearchGoesForward(e, d', currentYear);
      }
    }
  }

  lemma JumpLeavesLess(e: Expression, d: DateTime, currentYear: int)
    requires Expanded(e) && Valid(d) && InWindow(d, currentYear) && Jump(e, d).Some?
    requires Valid(Jump(e, d).value) && InWindow(Jump(e, d).value, currentYear)
    ensures 0 < Left(Jump(e, d).value, currentYear) < Left(d, currentYear)
    ensures Jump(e, d).value.date.year >= d.date.year
  {
    JumpsForward(e, d);
    WindowBeforeHorizon(d, currentYear);
    WindowBeforeHorizon(Jump(e, d).value, currentYear);
    TimeOrder(d, Jump(e, d).value);
  }

  lemma OutOfWindow(d: DateTime, d': DateTime, x: DateTime, currentYear: int)
    requires Valid(d) && Valid(d') && Valid(x) && Stamp(d) < Stamp(d') <= Stamp(x)
    requires d.date.year >= currentYear && !InWindow(d', currentYear)
    ensures x.date.year > currentYear + MAX_YEARS
  {
    TimeOrder(d, d');
    TimeOrder(x, d');
  }

  /** What the search finds is no later than a matching time in the window, unless that is lost. */
  lemma {:induction false} SearchMisses(e: Expression, d: DateTime, currentYear: int, x: DateTime)
    requires Expanded(e) && Valid(d) && d.date.year >= currentYear
    requires Valid(x) && Matches(e, x) && Stamp(Floor(e, d)) <= Stamp(x)
    ensures LostFrom(e, d, x)
            || match SearchFrom(e, d, currentYear)
               case Some(t) => Valid(t) && Stamp(t) <= Stamp(x)
               case None => x.date.year > currentYear + MAX_YEARS
    decreases Left(d, currentYear)
  {
    if !InWindow(d, currentYear) {
      TimeOrder(x, Floor(e, d));
    } else if Jump(e, d).Some? {
      var d' := Jump(e, d).value;
      JumpsForward(e, d);
      if Stamp(x) < Stamp(d') {
        JumpPasses(e, d, x);
      } else if InWindow(d', currentYear) {
        JumpLeavesLess(e, d, currentYear);
        SearchMisses(e, d', currentYear, x);
      } else {
        OutOfWindow(d, d', x, currentYear);
      }
    }
  }

  /** The least matching time after `now`; none if the next 50 years have none. */
  ghost predicate IsNext(e: Expression, now: DateTime, r: Option<DateTime>)
    requires Valid(now)
  {
    match r
    case Some(t) =>
      && Valid(t) && Matches(e, t) && Stamp(now) < Stamp(t) && InWindow(t, StartOf(e, now).date.year)
      && forall x :: Valid(x) && Matches(e, x) && Stamp(now) < Stamp(x) ==> Stamp(t) <= Stamp(x)
    case None =>
      forall x :: Valid(x) && Matches(e, x) && Stamp(now) < Stamp(x) ==>
        x.date.year > StartOf(e, now).date.year + MAX_YEARS
  }

  /** Every matching time after `now` is at or after the first time looked at. */
  lemma StartMissesNone(e: Expression, now: DateTime, x: DateTime)
    requires Valid(now) && Valid(x)
    ensures Valid(StartOf(e, now)) && Stamp(now) < Stamp(Floor(e, StartOf(e, now)))
    ensures Matches(e, x) && Stamp(now) < Stamp(x) ==> Stamp(Floor(e, StartOf(e, now))) <= Stamp(x)
  {
    if e.second.Some? {
      PlusSecondsCounts(now, 1);
    } else {
      PlusSecondsCounts(now, 60);
      WholeMinutes(now, PlusSeconds(now, 60), x);
    }
  }

  lemma WholeMinutes(now: DateTime, start: DateTime, x: DateTime)
    requires Valid(now) && Valid(start) && Valid(x) && Stamp(start) == Stamp(now) + 60
    ensures Stamp(now) < Stamp(start.(second := 0))
    ensures x.second == 0 && Stamp(now) < Stamp(x) ==> Stamp(start.(second := 0)) <= Stamp(x)
  {
    StampInMinutes(now);
    StampInMinutes(start);
    StampInMinutes(x);
    StampInMinutes(start.(second := 0));
    assert Minutes(start.(second := 0)) == Minutes(start);
    NextWholeMinute(Minutes(now), now.second, Minutes(start), start.second, Minutes(x));
  }

  lemma StampInMinutes(x: DateTime)
    requires Valid(x)
    ensures Stamp(x) == Minutes(x) * 60 + x.second
  {
  }

  lemma NextWholeMinute(now: int, second: int, start: int, second': int, x: int)
    requires 0 <= second < 60 && 0 <= second' < 60 && start * 60 + second' == now * 60 + second + 60
    ensures now * 60 + second < start * 60
    ensures now * 60 + second < x * 60 ==> start * 60 <= x * 60
  {
  }

  lemma SearchFindsNext(e: Expression, now: DateTime)
    requires Expanded(e) && Valid(now) && DaysSafe(e)
    ensures IsNext(e, now, Search(e, now))
  {
    StartMissesNone(e, now, now);
    var start := StartOf(e, now);
    SearchGoesForward(e, start, start.date.year);
    forall x | Valid(x) && Matches(e, x) && Stamp(now) < Stamp(x)
      ensures match Search(e, now)
              case Some(t) => Stamp(t) <= Stamp(x)
              case None => x.date.year > start.date.year + MAX_YEARS
    {
      StartMissesNone(e, now, x);
      SearchMisses(e, start, start.date.year, x);
      SafeDaysLoseNone(e, x);
    }
  }
}
