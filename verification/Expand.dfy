/** Expansion of one field of a cron expression: numbers, ranges and steps become the sorted list
    of values they stand for, or a wildcard. Names, hashes, `l` and `#` are not modelled. */
module Expand {
  import opened SystemTables
  import opened Cron

  datatype Kind = Minute | Hour | Day | Month | Dow | Second

  /** One member of the comma-separated list. `*` followed by a step is the range of the whole
      field, and a number followed by a step the range from it to the field's maximum. */
  datatype Part = Star | Number(t: int) | Range(low: int, high: int, step: nat)

  datatype ExpandError = OutOfRange | NotAcceptable | OutOfBands | InvalidRange

  function Lo(k: Kind): int {
    if k.Day? || k.Month? then 1 else 0
  }

  function Hi(k: Kind): int {
    match k
    case Minute => 59
    case Hour => 23
    case Day => 31
    case Month => 12
    case Dow => 7
    case Second => 59
  }

  /** LEN_MEANS_ALL. */
  function All(k: Kind): int {
    if k.Dow? then 7 else Hi(k) - Lo(k) + 1
  }

  /** Five-field expressions fold Sunday as 7 to 0; six-field ones do not, and instead fold day
      0 to 1. */
  function Fold(k: Kind, fields: int, t: int): int {
    if k.Dow? && t == 7 && fields == 5 then 0
    else if k.Day? && t == 0 && fields == 6 then 1
    else t
  }

  // ----- what a part stands for -----

  /** A range of weekdays up to 0 ends on Sunday. */
  function HighOf(k: Kind, p: Part): int
    requires p.Range?
  {
    if k.Dow? && p.low > p.high && p.high == 0 then 7 else p.high
  }

  predicate OnGrid(low: int, step: nat, t: int) {
    step > 0 && (t - low) % step == 0
  }

  predicate Names(k: Kind, p: Part, t: int) {
    match p
    case Star => false
    case Number(u) => t == u
    case Range(low, _, step) => low <= t <= HighOf(k, p) && OnGrid(low, step, t)
  }

  ghost predicate Denotes(k: Kind, fields: int, p: Part, v: int) {
    exists t :: Names(k, p, t) && Fold(k, fields, t) == v
  }

  ghost predicate Denoted(k: Kind, fields: int, parts: seq<Part>, v: int) {
    exists i :: 0 <= i < |parts| && Denotes(k, fields, parts[i], v)
  }

  predicate RangeOk(k: Kind, p: Part)
    requires p.Range?
  {
    p.step > 0 && p.low <= HighOf(k, p) <= Hi(k)
  }

  /** Every number a part names is a value of the field. */
  ghost predicate PartOk(k: Kind, fields: int, p: Part) {
    && (p.Range? ==> RangeOk(k, p))
    && forall v :: Denotes(k, fields, p, v) ==> Lo(k) <= v <= Hi(k)
  }

  // ----- ranges -----

  function RangeItems(low: int, high: int, step: nat): seq<Part>
    requires step > 0
    decreases high - low
  {
    if low > high then [] else [Number(low)] + RangeItems(low + step, high, step)
  }

  lemma StepBack(a: int, step: int)
    requires step > 0 && a >= 0
    ensures a >= step ==> (a - step) % step == a % step
    ensures 0 < a < step ==> a % step != 0
  {
    if a >= step {
      var q, r := (a - step) / step, (a - step) % step;
      assert a == (q + 1) * step + r;
      SameRemainder(a / step, a % step, q + 1, r, step);
    } else {
      SameRemainder(a / step, a % step, 0, a, step);
    }
  }

  lemma SameRemainder(q: int, r: int, q': int, r': int, step: int)
    requires step > 0 && 0 <= r < step && 0 <= r' < step && q * step + r == q' * step + r'
    ensures r == r'
  {
    if q < q' {
      AtLeastOneStep(q' - q, step);
    } else if q' < q {
      AtLeastOneStep(q - q', step);
    }
  }

  lemma AtLeastOneStep(n: int, step: int)
    requires n >= 1 && step > 0
    ensures n * step >= step
  {
  }

  /** `range(low, high + 1, step)` is every step-th number. */
  lemma {:induction false} RangeItemsAre(low: int, high: int, step: nat, t: int)
    requires step > 0
    ensures Number(t) in RangeItems(low, high, step) <==> low <= t <= high && OnGrid(low, step, t)
    decreases high - low
  {
    if low <= high {
      RangeItemsAre(low + step, high, step, t);
      if t > low {
        StepBack(t - low, step);
        assert t - low - step == t - (low + step);
      }
    }
  }

  lemma {:induction false} RangeItemsNumbers(low: int, high: int, step: nat, i: nat)
    requires step > 0 && i < |RangeItems(low, high, step)|
    ensures RangeItems(low, high, step)[i].Number?
    decreases high - low
  {
    if low <= high && i > 0 {
      RangeItemsNumbers(low + step, high, step, i - 1);
    }
  }

  // ----- the worklist -----

  ghost predicate AllOk(k: Kind, fields: int, parts: seq<Part>) {
    forall i :: 0 <= i < |parts| ==> PartOk(k, fields, parts[i])
  }

  function Ranges(parts: seq<Part>): nat {
    if parts == [] then 0
    else Ranges(parts[..|parts| - 1]) + (if parts[|parts| - 1].Range? then 1 else 0)
  }

  lemma {:induction false} NumbersAddNoRange(rest: seq<Part>, items: seq<Part>)
    requires forall i :: 0 <= i < |items| ==> items[i].Number?
    ensures Ranges(rest + items) == Ranges(rest)
    decreases |items|
  {
    if items != [] {
      var n := |items| - 1;
      assert (rest + items)[..|rest| + n] == rest + items[..n];
      NumbersAddNoRange(rest, items[..n]);
    } else {
      assert rest + items == rest;
    }
  }

  lemma DenotedConcat(k: Kind, fields: int, a: seq<Part>, b: seq<Part>, v: int)
    ensures Denoted(k, fields, a + b, v) <==> Denoted(k, fields, a, v) || Denoted(k, fields, b, v)
  {
    if Denoted(k, fields, a, v) {
      var i :| 0 <= i < |a| && Denotes(k, fields, a[i], v);
      assert (a + b)[i] == a[i];
    }
    if Denoted(k, fields, b, v) {
      var i :| 0 <= i < |b| && Denotes(k, fields, b[i], v);
      assert (a + b)[|a| + i] == b[i];
    }
  }

  lemma AllOkConcat(k: Kind, fields: int, a: seq<Part>, b: seq<Part>)
    ensures AllOk(k, fields, a + b) <==> AllOk(k, fields, a) && AllOk(k, fields, b)
  {
    if AllOk(k, fields, a + b) {
      forall i | 0 <= i < |a|
        ensures PartOk(k, fields, a[i])
      {
        assert (a + b)[i] == a[i];
      }
      forall i | 0 <= i < |b|
        ensures PartOk(k, fields, b[i])
      {
        assert (a + b)[|a| + i] == b[i];
      }
    }
  }

  lemma NumberDenotes(k: Kind, fields: int, t: int, v: int)
    ensures Denotes(k, fields, Number(t), v) <==> v == Fold(k, fields, t)
  {
  }

  lemma NumberOk(k: Kind, fields: int, t: int)
    ensures PartOk(k, fields, Number(t)) <==> Lo(k) <= Fold(k, fields, t) <= Hi(k)
  {
    NumberDenotes(k, fields, t, Fold(k, fields, t));
  }

  lemma SingletonDenotes(k: Kind, fields: int, p: Part, v: int)
    ensures Denoted(k, fields, [p], v) <==> Denotes(k, fields, p, v)
  {
    assert [p][0] == p;
  }

  lemma SingletonOk(k: Kind, fields: int, p: Part)
    ensures AllOk(k, fields, [p]) <==> PartOk(k, fields, p)
  {
    assert [p][0] == p;
  }

  /** A range stands for the numbers it is replaced by. */
  lemma ItemsDenote(k: Kind, fields: int, p: Part, v: int)
    requires p.Range? && p.step > 0
    ensures Denotes(k, fields, p, v) <==> Denoted(k, fields, RangeItems(p.low, HighOf(k, p), p.step), v)
  {
    var items := RangeItems(p.low, HighOf(k, p), p.step);
    if Denotes(k, fields, p, v) {
      var t :| Names(k, p, t) && Fold(k, fields, t) == v;
      RangeItemsAre(p.low, HighOf(k, p), p.step, t);
      var i :| 0 <= i < |items| && items[i] == Number(t);
      NumberDenotes(k, fields, t, v);
    }
    if Denoted(k, fields, items, v) {
      var i :| 0 <= i < |items| && Denotes(k, fields, items[i], v);
      RangeItemsNumbers(p.low, HighOf(k, p), p.step, i);
      RangeItemsAre(p.low, HighOf(k, p), p.step, items[i].t);
      NumberDenotes(k, fields, items[i].t, v);
      assert Names(k, p, items[i].t);
    }
  }

  lemma ItemsOk(k: Kind, fields: int, p: Part)
    requires p.Range? && RangeOk(k, p)
    ensures PartOk(k, fields, p) <==> AllOk(k, fields, RangeItems(p.low, HighOf(k, p), p.step))
  {
    var items := RangeItems(p.low, HighOf(k, p), p.step);
    forall v
      ensures Denotes(k, fields, p, v) <==> Denoted(k, fields, items, v)
    {
      ItemsDenote(k, fields, p, v);
    }
    if PartOk(k, fields, p) {
      forall i | 0 <= i < |items|
        ensures PartOk(k, fields, items[i])
      {
        RangeItemsNumbers(p.low, HighOf(k, p), p.step, i);
        assert forall v :: Denotes(k, fields, items[i], v) ==> Denoted(k, fields, items, v);
      }
    }
  }

  /** Replacing a range by its numbers changes nothing that matters. */
  lemma ReplaceRange(k: Kind, fields: int, rest: seq<Part>, p: Part)
    requires p.Range? && RangeOk(k, p)
    ensures var items := RangeItems(p.low, HighOf(k, p), p.step);
            && Ranges(rest + items) == Ranges(rest)
            && (Star in rest + items <==> Star in rest + [p])
            && (AllOk(k, fields, rest + items) <==> AllOk(k, fields, rest + [p]))
            && forall v :: Denoted(k, fields, rest + items, v) <==> Denoted(k, fields, rest + [p], v)
  {
    var items := RangeItems(p.low, HighOf(k, p), p.step);
    forall i | 0 <= i < |items|
      ensures items[i].Number?
    {
      RangeItemsNumbers(p.low, HighOf(k, p), p.step, i);
    }
    NumbersAddNoRange(rest, items);
    ItemsOk(k, fields, p);
    AllOkConcat(k, fields, rest, items);
    AllOkConcat(k, fields, rest, [p]);
    SingletonOk(k, fields, p);
    forall v
      ensures Denoted(k, fields, rest + items, v) <==> Denoted(k, fields, rest + [p], v)
    {
      DenotedConcat(k, fields, rest, items, v);
      DenotedConcat(k, fields, rest, [p], v);
      SingletonDenotes(k, fields, p, v);
      ItemsDenote(k, fields, p, v);
    }
  }

  lemma ReplaceNumber(k: Kind, fields: int, rest: seq<Part>, t: int)
    ensures Star in rest + [Number(t)] <==> Star in rest
    ensures AllOk(k, fields, rest + [Number(t)]) <==> AllOk(k, fields, rest) && Lo(k) <= Fold(k, fields, t) <= Hi(k)
    ensures forall v :: Denoted(k, fields, rest + [Number(t)], v)
                        <==> Denoted(k, fields, rest, v) || v == Fold(k, fields, t)
  {
    NumberOk(k, fields, t);
    AllOkConcat(k, fields, rest, [Number(t)]);
    SingletonOk(k, fields, Number(t));
    forall v
      ensures Denoted(k, fields, rest + [Number(t)], v) <==> Denoted(k, fields, rest, v) || v == Fold(k, fields, t)
    {
      DenotedConcat(k, fields, rest, [Number(t)], v);
      SingletonDenotes(k, fields, Number(t), v);
      NumberDenotes(k, fields, t, v);
    }
  }

  lemma ReplaceStar(k: Kind, fields: int, rest: seq<Part>)
    ensures AllOk(k, fields, rest + [Star]) <==> AllOk(k, fields, rest)
    ensures forall v :: Denoted(k, fields, rest + [Star], v) <==> Denoted(k, fields, rest, v)
  {
    AllOkConcat(k, fields, rest, [Star]);
    SingletonOk(k, fields, Star);
    forall v
      ensures Denoted(k, fields, rest + [Star], v) <==> Denoted(k, fields, rest, v)
    {
      DenotedConcat(k, fields, rest, [Star], v);
      SingletonDenotes(k, fields, Star, v);
    }
  }

  // ----- sorting and counting -----

  lemma MemberOf<T>(values: set<T>) returns (v: T)
    requires values != {}
    ensures v in values
  {
    v :| v in values;
  }

  method Least(values: set<int>) returns (least: int)
    requires values != {}
    ensures least in values && forall v :: v in values ==> least <= v
  {
    ghost var member := MemberOf(values);
    least :| least in values;
    var todo := values;
    while todo != {}
      invariant least in values && todo <= values
      invariant forall v :: v in values && v !in todo ==> least <= v
    {
      ghost var another := MemberOf(todo);
      var v :| v in todo;
      if v < least {
        least := v;
      }
      todo := todo - {v};
    }
  }

  method Sorted(values: set<int>) returns (s: seq<int>)
    ensures Increasing(s)
    ensures forall v :: v in s <==> v in values
  {
    s := [];
    var rest := values;
    while rest != {}
      invariant rest <= values
      invariant Increasing(s)
      invariant forall v :: v in s <==> v in values && v !in rest
      invariant forall i, w :: 0 <= i < |s| && w in rest ==> s[i] < w
    {
      var least := Least(rest);
      rest := rest - {least};
      s := s + [least];
    }
  }

  predicate Between(lo: int, v: int, hi: int) {
    lo <= v <= hi
  }

  function Interval(lo: int, hi: int): set<int> {
    set v | lo <= v <= hi && Between(lo, v, hi)
  }

  lemma {:induction false} IntervalSize(lo: int, hi: int)
    requires lo <= hi + 1
    ensures |Interval(lo, hi)| == hi - lo + 1
    decreases hi - lo
  {
    if lo <= hi {
      IntervalSize(lo, hi - 1);
      assert Interval(lo, hi) == Interval(lo, hi - 1) + {hi};
    }
  }

  /** As many values as the interval has are all of them. */
  lemma FullCount(values: set<int>, lo: int, hi: int)
    requires lo <= hi && values <= Interval(lo, hi)
    ensures |values| == hi - lo + 1 <==> values == Interval(lo, hi)
  {
    IntervalSize(lo, hi);
    assert Interval(lo, hi) == values + (Interval(lo, hi) - values);
    if |values| == hi - lo + 1 {
      assert |Interval(lo, hi) - values| == 0;
    }
  }

  // ----- one field -----

  /** The highest value of a date or time. */
  function Top(k: Kind): int {
    if k.Dow? then 6 else Hi(k)
  }

  ghost predicate MissesOnly(k: Kind, fields: int, parts: seq<Part>, v: int) {
    && 0 <= v <= 6 && !Denoted(k, fields, parts, v)
    && forall w :: 0 <= w <= 6 && w != v ==> Denoted(k, fields, parts, w)
  }

  /** Seven weekdays are counted as the whole week, even when two of them are Sunday. */
  ghost predicate WeekMiscounted(k: Kind, fields: int, parts: seq<Part>, otherHasStar: bool) {
    && k.Dow? && otherHasStar && Star !in parts && Denoted(k, fields, parts, 7)
    && exists v :: MissesOnly(k, fields, parts, v)
  }

  lemma MiscountIs(k: Kind, fields: int, parts: seq<Part>, otherHasStar: bool, res: set<int>)
    requires k.Dow? && otherHasStar && Star !in parts
    requires res <= Interval(0, 7) && forall v :: Denoted(k, fields, parts, v) <==> v in res
    ensures |res| == 7 <==> res == Interval(0, 6) || WeekMiscounted(k, fields, parts, otherHasStar)
  {
    if 7 !in res {
      FullCount(res, 0, 6);
    } else {
      var week := res - {7};
      if |res| == 7 {
        var v := SixLeaveOne(week);
        assert forall w :: w in week ==> Denoted(k, fields, parts, w);
        assert MissesOnly(k, fields, parts, v);
      }
      forall v | MissesOnly(k, fields, parts, v)
        ensures |res| == 7
      {
        assert week == Interval(0, 6) - {v};
        IntervalSize(0, 6);
      }
    }
  }

  lemma SixLeaveOne(week: set<int>) returns (v: int)
    requires week <= Interval(0, 6) && |week| == 6
    ensures 0 <= v <= 6 && v !in week && forall w :: 0 <= w <= 6 && w != v ==> w in week
  {
    FullCount(week, 0, 6);
    IntervalSize(0, 6);
    assert Interval(0, 6) == week + (Interval(0, 6) - week);
    v := MemberOf(Interval(0, 6) - week);
    FullCount(week + {v}, 0, 6);
    assert forall w :: 0 <= w <= 6 ==> w in Interval(0, 6);
  }

  lemma WildcardMeans(k: Kind, fields: int, parts: seq<Part>, otherHasStar: bool, res: set<int>)
    requires Star !in parts && res <= Interval(Lo(k), Hi(k))
    requires forall v :: Denoted(k, fields, parts, v) <==> v in res
    ensures |res| == All(k) && (otherHasStar || !(k.Day? || k.Dow?)) ==>
              WeekMiscounted(k, fields, parts, otherHasStar) || Interval(Lo(k), Top(k)) <= res
    ensures WeekMiscounted(k, fields, parts, otherHasStar) ==> |res| == All(k)
  {
    if k.Dow? {
      if otherHasStar {
        MiscountIs(k, fields, parts, otherHasStar, res);
      }
    } else {
      FullCount(res, Lo(k), Hi(k));
    }
  }

  /** A part that is not bad names something. */
  lemma NotEmpty(k: Kind, fields: int, parts: seq<Part>, res: set<int>)
    requires |parts| > 0 && Star !in parts && AllOk(k, fields, parts)
    requires forall v :: Denoted(k, fields, parts, v) <==> v in res
    ensures res != {}
  {
    var p := parts[0];
    assert p != Star;
    var t := if p.Number? then p.t else p.low;
    if p.Range? {
      RangeItemsAre(p.low, HighOf(k, p), p.step, p.low);
    }
    assert Names(k, p, t);
    assert Denotes(k, fields, p, Fold(k, fields, t));
    assert Denoted(k, fields, parts, Fold(k, fields, t));
  }

  /** What is still to be expanded, together with what has been, stands for what `parts` do. */
  ghost predicate SameMeaning(k: Kind, fields: int, parts: seq<Part>, eList: seq<Part>, res: set<int>, starred: bool) {
    && (AllOk(k, fields, parts) <==> AllOk(k, fields, eList))
    && (Star in parts <==> starred || Star in eList)
    && (forall v :: Denoted(k, fields, parts, v) <==> v in res || Denoted(k, fields, eList, v))
    && res <= Interval(Lo(k), Hi(k))
  }

  lemma RangeStep(k: Kind, fields: int, parts: seq<Part>, rest: seq<Part>, p: Part, res: set<int>, starred: bool)
    requires p.Range? && SameMeaning(k, fields, parts, rest + [p], res, starred)
    ensures RangeOk(k, p) ==>
              SameMeaning(k, fields, parts, rest + RangeItems(p.low, HighOf(k, p), p.step), res, starred)
    ensures !RangeOk(k, p) ==> !AllOk(k, fields, parts)
  {
    if RangeOk(k, p) {
      ReplaceRange(k, fields, rest, p);
    } else {
      AllOkConcat(k, fields, rest, [p]);
      SingletonOk(k, fields, p);
    }
  }

  lemma NumberStep(k: Kind, fields: int, parts: seq<Part>, rest: seq<Part>, t: int, res: set<int>, starred: bool)
    requires SameMeaning(k, fields, parts, rest + [Number(t)], res, starred)
    ensures var folded := Fold(k, fields, t);
            if Lo(k) <= folded <= Hi(k) then SameMeaning(k, fields, parts, rest, res + {folded}, starred)
            else !AllOk(k, fields, parts)
  {
    ReplaceNumber(k, fields, rest, t);
    var folded := Fold(k, fields, t);
    if Lo(k) <= folded <= Hi(k) {
      assert folded in Interval(Lo(k), Hi(k));
    }
  }

  lemma StarStep(k: Kind, fields: int, parts: seq<Part>, rest: seq<Part>, res: set<int>, starred: bool)
    requires SameMeaning(k, fields, parts, rest + [Star], res, starred)
    ensures SameMeaning(k, fields, parts, rest, res, true)
  {
    ReplaceStar(k, fields, rest);
    assert (rest + [Star])[|rest|] == Star;
  }

  ghost predicate Expands(k: Kind, fields: int, parts: seq<Part>, otherHasStar: bool, f: Field) {
    && (forall v :: Lo(k) <= v <= Top(k) ==>
          (Has(f, v) <==> Star in parts || Denoted(k, fields, parts, v)
                          || WeekMiscounted(k, fields, parts, otherHasStar)))
    && (f.Values? ==> forall v :: v in f.list ==> Denoted(k, fields, parts, v))
  }

  lemma ListExpands(k: Kind, fields: int, parts: seq<Part>, otherHasStar: bool, res: set<int>, list: seq<int>)
    requires |parts| > 0 && SameMeaning(k, fields, parts, [], res, false)
    requires Increasing(list) && forall v :: v in list <==> v in res
    ensures AllOk(k, fields, parts)
    ensures var f := if |res| == All(k) && (otherHasStar || !(k.Day? || k.Dow?)) then Any else Values(list);
            FieldOk(f, Lo(k), Hi(k)) && Expands(k, fields, parts, otherHasStar, f)
  {
    forall v
      ensures Denoted(k, fields, parts, v) <==> v in res
    {
      assert !Denoted(k, fields, [], v);
    }
    WildcardMeans(k, fields, parts, otherHasStar, res);
    NotEmpty(k, fields, parts, res);
    var member := MemberOf(res);
    assert member in list;
    assert list != [];
    assert list[0] in res;
    assert forall v :: Lo(k) <= v <= Top(k) ==> Between(Lo(k), v, Top(k));
  }

  /** One field of `_expand`. It fails exactly when some part is bad; otherwise the result holds
      the values the parts stand for, except when the week is miscounted. `otherHasStar` tells
      whether the other day field's text has a wildcard. */
  method ExpandField(k: Kind, fields: int, parts: seq<Part>, otherHasStar: bool)
    returns (r: Result<Field, ExpandError>)
    requires |parts| > 0
    ensures r.Ok? <==> AllOk(k, fields, parts)
    ensures r.Ok? ==> FieldOk(r.value, Lo(k), Hi(k)) && Expands(k, fields, parts, otherHasStar, r.value)
  {
    var eList, res, starred := parts, {}, false;
    while eList != []
      invariant SameMeaning(k, fields, parts, eList, res, starred)
      decreases Ranges(eList), |eList|
    {
      var n := |eList| - 1;
      var e, rest := eList[n], eList[..n];
      assert eList == rest + [e];
      match e {
        case Range(low, high, step) =>
          RangeStep(k, fields, parts, rest, e, res, starred);
          if low > HighOf(k, e) {
            return Err(NotAcceptable);
          }
          if HighOf(k, e) > Hi(k) {
            return Err(OutOfBands);
          }
          if step == 0 {
            return Err(InvalidRange);
          }
          ReplaceRange(k, fields, rest, e);
          eList := rest + RangeItems(low, HighOf(k, e), step);
        case Star =>
          StarStep(k, fields, parts, rest, res, starred);
          eList, starred := rest, true;
        case Number(t) =>
          NumberStep(k, fields, parts, rest, t, res, starred);
          var folded := Fold(k, fields, t);
          if folded < Lo(k) || folded > Hi(k) {
            return Err(OutOfRange);
          }
          eList, res := rest, res + {folded};
      }
    }
    if starred {
      return Ok(Any);
    }
    var list := Sorted(res);
    ListExpands(k, fields, parts, otherHasStar, res, list);
    r := Ok(if |res| == All(k) && (otherHasStar || !(k.Day? || k.Dow?)) then Any else Values(list));
  }
}
