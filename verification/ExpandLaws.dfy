/** What an expression means as it is written, and that its expansion means the same. */
module ExpandLaws {
  import opened SystemTables
  import opened Calendar
  import opened Cron
  import opened Expand

  // ----- as written -----

  /** The part names the number `t`. In the weekday field a range that ends on 0 ends on Sunday. */
  predicate Writes(k: Kind, p: Part, t: int) {
    match p
    case Star => false
    case Number(u) => t == u
    case Range(low, high, step) =>
      step > 0 && low <= t && (t - low) % step == 0 && t <= if k.Dow? && high == 0 && low > 0 then 7 else high
  }

  ghost predicate Written(k: Kind, parts: seq<Part>, t: int) {
    exists i :: 0 <= i < |parts| && Writes(k, parts[i], t)
  }

  /** Five fields: Sunday is 0 or 7. Six fields: Sunday is 0 only, and day 0 is the first. */
  ghost predicate NamesValue(k: Kind, fields: int, parts: seq<Part>, v: int) {
    || Star in parts
    || (Written(k, parts, v) && !(k.Dow? && v == 7 && fields == 5) && !(k.Day? && v == 0 && fields == 6))
    || (k.Dow? && fields == 5 && v == 0 && Written(k, parts, 7))
    || (k.Day? && fields == 6 && v == 1 && Written(k, parts, 0))
  }

  /** Six fields: 7 and six of the seven weekdays are written, no wildcard, and the other day field has
      one. */
  ghost predicate SevenOfEight(k: Kind, fields: int, parts: seq<Part>, otherHasStar: bool) {
    && k.Dow? && fields != 5 && otherHasStar && Star !in parts && Written(k, parts, 7)
    && exists v :: AllButOne(k, parts, v)
  }

  ghost predicate AllButOne(k: Kind, parts: seq<Part>, v: int) {
    0 <= v <= 6 && !Written(k, parts, v) && forall w :: 0 <= w <= 6 && w != v ==> Written(k, parts, w)
  }

  // ----- the specification of the expansion says the same -----

  lemma NamesAreWritten(k: Kind, p: Part, t: int)
    ensures Names(k, p, t) <==> Writes(k, p, t)
  {
  }

  lemma DenotedAsWritten(k: Kind, fields: int, parts: seq<Part>, v: int)
    requires Star !in parts
    ensures Denoted(k, fields, parts, v) <==> NamesValue(k, fields, parts, v)
  {
    if Denoted(k, fields, parts, v) {
      var i :| 0 <= i < |parts| && Denotes(k, fields, parts[i], v);
      var t :| Names(k, parts[i], t) && Fold(k, fields, t) == v;
      NamesAreWritten(k, parts[i], t);
      assert Written(k, parts, t);
    }
    if t :| (t == v || t == 7 || t == 0) && Written(k, parts, t) && Fold(k, fields, t) == v {
      var i :| 0 <= i < |parts| && Writes(k, parts[i], t);
      NamesAreWritten(k, parts[i], t);
      assert Denotes(k, fields, parts[i], v);
    }
  }

  lemma WeekdayAsWritten(fields: int, parts: seq<Part>, v: int)
    requires Star !in parts && fields != 5
    ensures Denoted(Dow, fields, parts, v) <==> Written(Dow, parts, v)
  {
    DenotedAsWritten(Dow, fields, parts, v);
  }

  lemma NoSevenInFiveFields(parts: seq<Part>)
    ensures !Denoted(Dow, 5, parts, 7)
  {
  }

  lemma MiscountAsWritten(k: Kind, fields: int, parts: seq<Part>, otherHasStar: bool)
    ensures WeekMiscounted(k, fields, parts, otherHasStar) <==> SevenOfEight(k, fields, parts, otherHasStar)
  {
    if k.Dow? && Star !in parts {
      NoSevenInFiveFields(parts);
      if fields != 5 {
        forall v
          ensures Denoted(k, fields, parts, v) <==> Written(k, parts, v)
        {
          WeekdayAsWritten(fields, parts, v);
        }
        assert forall v :: MissesOnly(k, fields, parts, v) <==> AllButOne(k, parts, v);
      }
    }
  }

  predicate InBounds(k: Kind, fields: int, t: int) {
    match k
    case Minute => 0 <= t <= 59
    case Hour => 0 <= t <= 23
    case Day => 1 <= t <= 31 || (t == 0 && fields == 6)
    case Month => 1 <= t <= 12
    case Dow => 0 <= t <= 7
    case Second => 0 <= t <= 59
  }

  /** A number in bounds, or a range with a positive step from a number in bounds up to another. */
  predicate Acceptable(k: Kind, fields: int, p: Part) {
    match p
    case Star => true
    case Number(t) => InBounds(k, fields, t)
    case Range(low, high, step) =>
      var last := if k.Dow? && high == 0 && low > 0 then 7 else high;
      step > 0 && low <= last && InBounds(k, fields, low) && InBounds(k, fields, last)
  }

  lemma NumberOkIff(k: Kind, fields: int, t: int)
    requires fields == 5 || fields == 6
    ensures PartOk(k, fields, Number(t)) <==> InBounds(k, fields, t)
  {
    NumberOk(k, fields, t);
  }

  lemma GoodRangeIsAcceptable(k: Kind, fields: int, p: Part)
    requires (fields == 5 || fields == 6) && p.Range? && PartOk(k, fields, p)
    ensures Acceptable(k, fields, p)
  {
    assert Names(k, p, p.low);
    assert Denotes(k, fields, p, Fold(k, fields, p.low));
  }

  lemma RangeWithin(k: Kind, fields: int, p: Part, v: int)
    requires (fields == 5 || fields == 6) && p.Range? && Acceptable(k, fields, p) && Denotes(k, fields, p, v)
    ensures Lo(k) <= v <= Hi(k)
  {
    var t :| Names(k, p, t) && Fold(k, fields, t) == v;
    assert p.low <= t <= HighOf(k, p);
  }

  lemma AcceptableIff(k: Kind, fields: int, p: Part)
    requires fields == 5 || fields == 6
    ensures PartOk(k, fields, p) <==> Acceptable(k, fields, p)
  {
    match p
    case Star =>
    case Number(t) => NumberOkIff(k, fields, t);
    case Range(low, high, step) =>
      if PartOk(k, fields, p) {
        GoodRangeIsAcceptable(k, fields, p);
      }
      if Acceptable(k, fields, p) {
        forall v | Denotes(k, fields, p, v)
          ensures Lo(k) <= v <= Hi(k)
        {
          RangeWithin(k, fields, p, v);
        }
      }
  }

  /** The field accepts exactly the values of the calendar that the parts name; with five fields no
      list holds 7. */
  ghost predicate FieldMeans(k: Kind, fields: int, parts: seq<Part>, otherHasStar: bool, f: Field) {
    && (forall v :: Lo(k) <= v <= Top(k) ==>
          (Has(f, v) <==> NamesValue(k, fields, parts, v) || SevenOfEight(k, fields, parts, otherHasStar)))
    && (k.Dow? && fields == 5 && f.Values? ==> 7 !in f.list)
  }

  lemma ExpansionMeans(k: Kind, fields: int, parts: seq<Part>, otherHasStar: bool, f: Field)
    requires Expands(k, fields, parts, otherHasStar, f)
    ensures FieldMeans(k, fields, parts, otherHasStar, f)
  {
    MiscountAsWritten(k, fields, parts, otherHasStar);
    forall v | Lo(k) <= v <= Top(k)
      ensures Has(f, v) <==> NamesValue(k, fields, parts, v) || SevenOfEight(k, fields, parts, otherHasStar)
    {
      if Star !in parts {
        DenotedAsWritten(k, fields, parts, v);
      }
    }
    if k.Dow? && fields == 5 {
      NoSevenInFiveFields(parts);
    }
  }

  /** The fields' bounds are those of the calendar: each value of a date or time lies within them. */
  lemma BoundsAreTheCalendar(x: DateTime)
    requires Valid(x)
    ensures Lo(Minute) <= x.minute <= Top(Minute) && Lo(Hour) <= x.hour <= Top(Hour)
    ensures Lo(Second) <= x.second <= Top(Second)
    ensures Lo(Day) <= x.date.day <= Top(Day) && Lo(Month) <= x.date.month <= Top(Month)
    ensures Lo(Dow) <= Weekday(x.date) <= Top(Dow)
  {
  }

  // ----- whole expressions -----

  /** The fields of an expression, split into parts. The flags tell whether the text of a day field
      has a wildcard anywhere. */
  datatype Texts = Texts(minute: seq<Part>, hour: seq<Part>, day: seq<Part>, month: seq<Part>, dow: seq<Part>,
                         second: Option<seq<Part>>, dayHasStar: bool, dowHasStar: bool)

  function FieldCount(t: Texts): int {
    if t.second.Some? then 6 else 5
  }

  ghost predicate AllAcceptable(k: Kind, fields: int, parts: seq<Part>) {
    forall i :: 0 <= i < |parts| ==> Acceptable(k, fields, parts[i])
  }

  ghost predicate TextsAcceptable(t: Texts) {
    var n := FieldCount(t);
    && AllAcceptable(Minute, n, t.minute) && AllAcceptable(Hour, n, t.hour) && AllAcceptable(Day, n, t.day)
    && AllAcceptable(Month, n, t.month) && AllAcceptable(Dow, n, t.dow)
    && (t.second.Some? ==> AllAcceptable(Second, n, t.second.value))
  }

  /** Every field names its value of `x`; without seconds, `x` is a whole minute. */
  ghost predicate NamesTime(t: Texts, x: DateTime)
    requires Valid(x)
  {
    var n := FieldCount(t);
    && NamesValue(Minute, n, t.minute, x.minute) && NamesValue(Hour, n, t.hour, x.hour)
    && NamesValue(Day, n, t.day, x.date.day) && NamesValue(Month, n, t.month, x.date.month)
    && (NamesValue(Dow, n, t.dow, Weekday(x.date)) || SevenOfEight(Dow, n, t.dow, t.dayHasStar))
    && (if t.second.Some? then NamesValue(Second, n, t.second.value, x.second) else x.second == 0)
  }

  method ExpandOne(k: Kind, fields: int, parts: seq<Part>, otherHasStar: bool) returns (r: Result<Field, ExpandError>)
    requires |parts| > 0 && (fields == 5 || fields == 6)
    ensures r.Ok? <==> AllAcceptable(k, fields, parts)
    ensures r.Ok? ==> FieldOk(r.value, Lo(k), Hi(k)) && FieldMeans(k, fields, parts, otherHasStar, r.value)
  {
    forall i | 0 <= i < |parts|
      ensures PartOk(k, fields, parts[i]) <==> Acceptable(k, fields, parts[i])
    {
      AcceptableIff(k, fields, parts[i]);
    }
    r := ExpandField(k, fields, parts, otherHasStar);
    if r.Ok? {
      ExpansionMeans(k, fields, parts, otherHasStar, r.value);
    }
  }

  /** `_expand`, field by field. It fails exactly when some part is not acceptable; the expression it
      gives matches exactly the times whose values the fields name as written. */
  method ExpandAll(t: Texts) returns (r: Result<Expression, ExpandError>)
    requires |t.minute| > 0 && |t.hour| > 0 && |t.day| > 0 && |t.month| > 0 && |t.dow| > 0
    requires t.second.Some? ==> |t.second.value| > 0
    ensures r.Ok? <==> TextsAcceptable(t)
    ensures r.Ok? ==> Expanded(r.value)
    ensures r.Ok? ==> forall x :: Valid(x) ==> (Matches(r.value, x) <==> NamesTime(t, x))
    ensures r.Ok? && t.second.None? && r.value.dow.Values? ==> 7 !in r.value.dow.list
  {
    var n := FieldCount(t);
    var minute := ExpandOne(Minute, n, t.minute, false);
    if minute.Err? { return Err(minute.error); }
    var hour := ExpandOne(Hour, n, t.hour, false);
    if hour.Err? { return Err(hour.error); }
    var day := ExpandOne(Day, n, t.day, t.dowHasStar);
    if day.Err? { return Err(day.error); }
    var month := ExpandOne(Month, n, t.month, false);
    if month.Err? { return Err(month.error); }
    var dow := ExpandOne(Dow, n, t.dow, t.dayHasStar);
    if dow.Err? { return Err(dow.error); }
    var second := None;
    if t.second.Some? {
      var s := ExpandOne(Second, n, t.second.value, false);
      if s.Err? { return Err(s.error); }
      second := Some(s.value);
    }
    var e := Expression(minute.value, hour.value, day.value, month.value, dow.value, second);
    forall x | Valid(x)
      ensures Matches(e, x) <==> NamesTime(t, x)
    {
      BoundsAreTheCalendar(x);
    }
    r := Ok(e);
  }
}
