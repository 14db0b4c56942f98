/** The proleptic Gregorian calendar of Python's `datetime.date`, with `dateutil`'s month addition.
    Years are unbounded integers here. */
module Calendar {

  datatype RawDate = RawDate(y: int, m: int, d: int)

  predicate IsLeap(y: int) {
    y % 4 == 0 && (y % 100 != 0 || y % 400 == 0)
  }

  /** `monthrange(y, m)[1]` */
  function MonthLength(y: int, m: int): (n: int)
    requires 1 <= m <= 12
    ensures 28 <= n <= 31
  {
    if m == 2 then (if IsLeap(y) then 29 else 28)
    else if m == 4 || m == 6 || m == 9 || m == 11 then 30
    else 31
  }

  predicate ValidDate(t: RawDate) {
    1 <= t.m <= 12 && 1 <= t.d <= MonthLength(t.y, t.m)
  }

  type Date = t: RawDate | ValidDate(t) witness RawDate(1, 1, 1)

  // ----- Day numbers ---------------------------------------------------------------------------

  /** Months since January of year 0. */
  function MonthIndex(t: Date): int {
    12 * t.y + t.m - 1
  }

  /** Days of a common year before its month `m`. */
  function DaysBeforeMonth(m: int): int
    requires 1 <= m <= 12
  {
    match m
    case 1 => 0
    case 2 => 31
    case 3 => 59
    case 4 => 90
    case 5 => 120
    case 6 => 151
    case 7 => 181
    case 8 => 212
    case 9 => 243
    case 10 => 273
    case 11 => 304
    case _ => 334
  }

  /** Leap days in the years up to and including `y`. */
  function LeapDays(y: int): int {
    y / 4 - y / 100 + y / 400
  }

  /** The last year whose leap day, if any, lies before month `m` of year `y`. */
  function LeapYearsTo(y: int, m: int): int {
    if m > 2 then y else y - 1
  }

  function DaysBefore(y: int, m: int): int
    requires 1 <= m <= 12
  {
    365 * (y - 1) + DaysBeforeMonth(m) + LeapDays(LeapYearsTo(y, m))
  }

  /** The number of days before the first of month `i` (a month index). */
  function MonthStart(i: int): int {
    DaysBefore(i / 12, i % 12 + 1)
  }

  /** `date.toordinal()` */
  function DayNumber(t: Date): int {
    MonthStart(MonthIndex(t)) + t.d
  }

  /** Python's `<` on dates. */
  predicate Before(a: Date, b: Date) {
    MonthIndex(a) < MonthIndex(b) || (MonthIndex(a) == MonthIndex(b) && a.d < b.d)
  }

  predicate OnOrBefore(a: Date, b: Date) {
    a == b || Before(a, b)
  }

  function IndexLength(i: int): (n: int)
    ensures 28 <= n <= 31
  {
    MonthLength(i / 12, i % 12 + 1)
  }

  lemma LeapDayOfYear(y: int)
    ensures LeapDays(y) - LeapDays(y - 1) == if IsLeap(y) then 1 else 0
  {
    FloorStep(y, 4);
    FloorStep(y, 100);
    FloorStep(y, 400);
    CenturiesNest(y);
  }

  lemma CenturiesNest(y: int)
    ensures y % 400 == 0 ==> y % 100 == 0
    ensures y % 100 == 0 ==> y % 4 == 0
  {}

  lemma FloorStep(y: int, n: int)
    requires n > 1
    ensures y / n - (y - 1) / n == if y % n == 0 then 1 else 0
  {
    var q, r := y / n, y % n;
    assert y == q * n + r;
    if r == 0 {
      QuotientIs(y - 1, n, q - 1, n - 1);
    } else {
      QuotientIs(y - 1, n, q, r - 1);
    }
  }

  lemma QuotientIs(x: int, n: int, q: int, r: int)
    requires n > 0 && x == q * n + r && 0 <= r < n
    ensures x / n == q && x % n == r
  {
    assert (x / n - q) * n == r - x % n;
    SmallMultiple(x / n - q, n);
  }

  lemma SmallMultiple(k: int, n: int)
    requires -n < k * n < n
    ensures k == 0
  {}

  /** Consecutive months abut: the model's day numbers leave no gap and no overlap. */
  lemma MonthsAbut(i: int)
    ensures MonthStart(i + 1) == MonthStart(i) + IndexLength(i)
  {
    var y, m := i / 12, i % 12 + 1;
    LeapDayOfYear(y);
    if m == 12 {
      QuotientIs(i + 1, 12, y + 1, 0);
    } else {
      QuotientIs(i + 1, 12, y, m);
    }
  }

  lemma {:induction false} MonthStartsIncrease(i: int, j: int)
    requires i < j
    ensures MonthStart(i) + IndexLength(i) <= MonthStart(j)
    decreases j - i
  {
    MonthsAbut(i);
    if i + 1 < j {
      MonthStartsIncrease(i + 1, j);
    }
  }

  lemma IndexOfDate(t: Date)
    ensures MonthIndex(t) / 12 == t.y && MonthIndex(t) % 12 + 1 == t.m
    ensures IndexLength(MonthIndex(t)) == MonthLength(t.y, t.m)
  {
    QuotientIs(MonthIndex(t), 12, t.y, t.m - 1);
  }

  /** Comparing dates and comparing their day numbers is the same thing. */
  lemma DayNumberOrder(a: Date, b: Date)
    ensures Before(a, b) <==> DayNumber(a) < DayNumber(b)
    ensures a == b <==> DayNumber(a) == DayNumber(b)
  {
    IndexOfDate(a);
    IndexOfDate(b);
    if MonthIndex(a) < MonthIndex(b) {
      MonthStartsIncrease(MonthIndex(a), MonthIndex(b));
    } else if MonthIndex(b) < MonthIndex(a) {
      MonthStartsIncrease(MonthIndex(b), MonthIndex(a));
    }
  }

  // ----- Month arithmetic ----------------------------------------------------------------------

  function Min(a: int, b: int): int { if a <= b then a else b }

  function Max(a: int, b: int): int { if a >= b then a else b }

  /** `t + relativedelta(months=n)`: the day is clamped to the length of the target month. */
  function AddMonths(t: Date, n: int): (r: Date)
    ensures MonthIndex(r) == MonthIndex(t) + n
    ensures r.d <= t.d && (r.d == t.d || IsMonthEnd(r))
  {
    var i := MonthIndex(t) + n;
    var y, m := i / 12, i % 12 + 1;
    RawDate(y, m, Min(t.d, MonthLength(y, m)))
  }

  predicate IsMonthEnd(t: Date) {
    t.d == MonthLength(t.y, t.m)
  }

  function EndOfMonth(t: Date): (r: Date)
    ensures MonthIndex(r) == MonthIndex(t) && IsMonthEnd(r)
  {
    RawDate(t.y, t.m, MonthLength(t.y, t.m))
  }

  /** A month end is the last day before the next month starts, so it is known by its month alone. */
  lemma MonthEndDay(t: Date)
    ensures DayNumber(t) <= MonthStart(MonthIndex(t) + 1)
    ensures IsMonthEnd(t) <==> DayNumber(t) == MonthStart(MonthIndex(t) + 1)
  {
    IndexOfDate(t);
    MonthsAbut(MonthIndex(t));
  }

  lemma MonthEndByIndex(a: Date, b: Date)
    requires IsMonthEnd(a) && IsMonthEnd(b)
    ensures OnOrBefore(a, b) <==> MonthIndex(a) <= MonthIndex(b)
    ensures a == b <==> MonthIndex(a) == MonthIndex(b)
  {
    IndexOfDate(a);
    IndexOfDate(b);
  }

  // ----- Financial years -----------------------------------------------------------------------

  /** The month-end columns of the financial year that ends on `yearEnd`, oldest first. */
  function FyMonthEnds(yearEnd: Date, months: nat): (cols: seq<Date>)
    ensures |cols| == months
  {
    var first := AddMonths(yearEnd, -(months - 1));
    seq(months, i => EndOfMonth(AddMonths(first, i)))
  }

  /** The columns are month ends of consecutive months, in date order, finishing in the year-end's
      own month, although the first column is reached through a clamped month subtraction. */
  lemma FyMonthEndsConsecutive(yearEnd: Date, months: nat)
    ensures var cols := FyMonthEnds(yearEnd, months);
      && (forall i :: 0 <= i < months ==>
            IsMonthEnd(cols[i]) && MonthIndex(cols[i]) == MonthIndex(yearEnd) - (months - 1) + i)
      && (forall i, j :: 0 <= i < j < months ==> Before(cols[i], cols[j]))
      && (forall i :: 0 <= i < months - 1 ==>
            DayNumber(cols[i + 1]) == DayNumber(cols[i]) + MonthLength(cols[i + 1].y, cols[i + 1].m))
      && (months > 0 ==> cols[months - 1] == EndOfMonth(yearEnd))
  {
    var cols := FyMonthEnds(yearEnd, months);
    forall i | 0 <= i < months - 1
      ensures DayNumber(cols[i + 1]) == DayNumber(cols[i]) + MonthLength(cols[i + 1].y, cols[i + 1].m)
    {
      MonthEndDay(cols[i]);
      MonthEndDay(cols[i + 1]);
      IndexOfDate(cols[i + 1]);
    }
    if months > 0 {
      MonthEndByIndex(cols[months - 1], EndOfMonth(yearEnd));
    }
  }

  /** The year-end of year `y` for a configured month and day, clamped to the month's length. */
  function YearEndIn(y: int, month: int, day: int): (t: Date)
    requires 1 <= month <= 12 && 1 <= day <= 31
    ensures t.y == y && t.m == month
    ensures t.d == day || (t.d < day && IsMonthEnd(t))
  {
    RawDate(y, month, Min(day, MonthLength(y, month)))
  }

  /** `_year_end_for` and the tail of `_org_year_end_date`. */
  function YearEndFor(t: Date, month: int, day: int): Date
    requires 1 <= month <= 12 && 1 <= day <= 31
  {
    var ye := YearEndIn(t.y, month, day);
    if OnOrBefore(t, ye) then ye else YearEndIn(t.y + 1, month, day)
  }

  /** `_accrual_year_end` */
  function AccrualYearEnd(today: Date, month: int, day: int): Date
    requires 1 <= month <= 12 && 1 <= day <= 31
  {
    var ye := YearEndIn(today.y, month, day);
    if OnOrBefore(ye, today) then ye else YearEndIn(today.y - 1, month, day)
  }

  predicate IsYearEnd(t: Date, month: int, day: int)
    requires 1 <= month <= 12 && 1 <= day <= 31
  {
    t == YearEndIn(t.y, month, day)
  }

  lemma YearEndsAYearApart(y: int, month: int, day: int)
    requires 1 <= month <= 12 && 1 <= day <= 31
    ensures 365 <= DayNumber(YearEndIn(y + 1, month, day)) - DayNumber(YearEndIn(y, month, day)) <= 366
  {
    IndexOfDate(YearEndIn(y, month, day));
    IndexOfDate(YearEndIn(y + 1, month, day));
    LeapDayOfYear(y);
    LeapDayOfYear(y + 1);
  }

  /** A date between two consecutive year-ends is at most 365 days from the one it is not on. */
  lemma WithinAYear(t: Date, y: int, month: int, day: int)
    requires 1 <= month <= 12 && 1 <= day <= 31
    requires OnOrBefore(YearEndIn(y, month, day), t) && OnOrBefore(t, YearEndIn(y + 1, month, day))
    ensures DayNumber(YearEndIn(y, month, day)) <= DayNumber(t) <= DayNumber(YearEndIn(y + 1, month, day))
    ensures Before(YearEndIn(y, month, day), t) ==> DayNumber(YearEndIn(y + 1, month, day)) - DayNumber(t) <= 365
    ensures Before(t, YearEndIn(y + 1, month, day)) ==> DayNumber(t) - DayNumber(YearEndIn(y, month, day)) <= 365
  {
    YearEndsAYearApart(y, month, day);
    DayNumberOrder(YearEndIn(y, month, day), t);
    DayNumberOrder(t, YearEndIn(y + 1, month, day));
  }

  lemma NextYearEnd(t: Date, month: int, day: int)
    requires 1 <= month <= 12 && 1 <= day <= 31
    ensures var ye := YearEndFor(t, month, day);
      && IsYearEnd(ye, month, day) && OnOrBefore(YearEndIn(ye.y - 1, month, day), t) && OnOrBefore(t, ye)
      && (IsYearEnd(t, month, day) ==> t == ye) && (t != ye ==> Before(YearEndIn(ye.y - 1, month, day), t))
      && forall other: Date :: IsYearEnd(other, month, day) && OnOrBefore(t, other) ==> OnOrBefore(ye, other)
  {}

  lemma LastYearEnd(t: Date, month: int, day: int)
    requires 1 <= month <= 12 && 1 <= day <= 31
    ensures var ye := AccrualYearEnd(t, month, day);
      && IsYearEnd(ye, month, day) && OnOrBefore(ye, t) && OnOrBefore(t, YearEndIn(ye.y + 1, month, day))
      && Before(t, YearEndIn(ye.y + 1, month, day))
      && forall other: Date :: IsYearEnd(other, month, day) && OnOrBefore(other, t) ==> OnOrBefore(other, ye)
  {}

  /** `YearEndFor` is the first year-end on or after its date, and less than a year away. */
  lemma YearEndForIsNext(t: Date, month: int, day: int)
    requires 1 <= month <= 12 && 1 <= day <= 31
    ensures var ye := YearEndFor(t, month, day);
      && IsYearEnd(ye, month, day) && OnOrBefore(t, ye)
      && forall other: Date :: IsYearEnd(other, month, day) && OnOrBefore(t, other) ==> OnOrBefore(ye, other)
    ensures 0 <= DayNumber(YearEndFor(t, month, day)) - DayNumber(t) <= 365
  {
    NextYearEnd(t, month, day);
    hide YearEndFor, YearEndIn, DayNumber, OnOrBefore, Before;
    WithinAYear(t, YearEndFor(t, month, day).y - 1, month, day);
  }

  /** The first year-end on or after `t`. */
  ghost predicate IsNextYearEnd(ye: Date, t: Date, month: int, day: int)
    requires 1 <= month <= 12 && 1 <= day <= 31
  {
    && IsYearEnd(ye, month, day) && OnOrBefore(t, ye)
    && forall other: Date :: IsYearEnd(other, month, day) && OnOrBefore(t, other) ==> OnOrBefore(ye, other)
  }

  lemma NextYearEndIs(ye: Date, t: Date, month: int, day: int)
    requires 1 <= month <= 12 && 1 <= day <= 31
    ensures YearEndFor(t, month, day) == ye <==> IsNextYearEnd(ye, t, month, day)
  {
    var next := YearEndFor(t, month, day);
    YearEndForIsNext(t, month, day);
    DayNumberOrder(next, ye);
    DayNumberOrder(ye, next);
    hide YearEndFor, IsYearEnd, DayNumber, Before;
  }

  /** `AccrualYearEnd` is the last year-end on or before its date, and less than a year back. */
  lemma AccrualYearEndIsLast(t: Date, month: int, day: int)
    requires 1 <= month <= 12 && 1 <= day <= 31
    ensures var ye := AccrualYearEnd(t, month, day);
      && IsYearEnd(ye, month, day) && OnOrBefore(ye, t)
      && forall other: Date :: IsYearEnd(other, month, day) && OnOrBefore(other, t) ==> OnOrBefore(other, ye)
    ensures 0 <= DayNumber(t) - DayNumber(AccrualYearEnd(t, month, day)) <= 365
  {
    LastYearEnd(t, month, day);
    hide AccrualYearEnd, YearEndIn, DayNumber, OnOrBefore, Before;
    WithinAYear(t, AccrualYearEnd(t, month, day).y, month, day);
  }

  /** The two agree exactly on year-ends; everywhere else they are one year apart. */
  lemma YearEndsAdjacent(t: Date, month: int, day: int)
    requires 1 <= month <= 12 && 1 <= day <= 31
    ensures YearEndFor(t, month, day) == AccrualYearEnd(t, month, day) <==> IsYearEnd(t, month, day)
    ensures !IsYearEnd(t, month, day) ==> YearEndFor(t, month, day).y == AccrualYearEnd(t, month, day).y + 1
  {}
}
