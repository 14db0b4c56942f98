/** The months of a prepaid period: how many fall after the year-end, how many the period counts in all, and
    when the first can exceed the second. */
module Terms {
  import opened Rounding
  import opened Calendar

  /** `_months_after`: whole months of the period after the year-end; two month ends are always a
      whole number of months apart. */
  function MonthsAfter(yearEnd: Date, periodEnd: Date): (m: int)
    ensures m >= 0
  {
    var m := MonthIndex(periodEnd) - MonthIndex(yearEnd);
    var partial := periodEnd.d < yearEnd.d && !(IsMonthEnd(yearEnd) && IsMonthEnd(periodEnd));
    Max(if partial then m - 1 else m, 0)
  }

  /** `max(round(days / 30.44), 1)` */
  function TotalMonths(start: Date, end: Date): (n: int)
    ensures n >= 1
  {
    Max(HalfEven(100 * (DayNumber(end) - DayNumber(start)), 3044), 1)
  }

  /** The months of a period, for month counts from one up: the `k`-th month after the year-end counts when the
      period reaches that month's day, or its own month's end after a year-end that is a month end. */
  lemma MonthsAfterIff(yearEnd: Date, periodEnd: Date, k: int)
    requires k >= 1
    ensures MonthsAfter(yearEnd, periodEnd) >= k <==>
      || MonthIndex(periodEnd) > MonthIndex(yearEnd) + k
      || (MonthIndex(periodEnd) == MonthIndex(yearEnd) + k
          && (periodEnd.d >= yearEnd.d || (IsMonthEnd(yearEnd) && IsMonthEnd(periodEnd))))
  {}

  /** So the count is the greatest `k` whose `k`-th month after the year-end is over by the end of the period,
      save that a year-end which is no month end waits for its own day: 30 January to 28 February is no month. */
  lemma MonthsAfterIsGreatest(yearEnd: Date, periodEnd: Date, k: int)
    requires k >= 1
    ensures MonthsAfter(yearEnd, periodEnd) >= k <==>
      && OnOrBefore(AddMonths(yearEnd, k), periodEnd)
      && (MonthIndex(periodEnd) == MonthIndex(yearEnd) + k && !IsMonthEnd(yearEnd) ==> periodEnd.d >= yearEnd.d)
  {
    MonthsAfterIff(yearEnd, periodEnd, k);
    var there := AddMonths(yearEnd, k);
    if MonthIndex(there) == MonthIndex(periodEnd) {
      IndexOfDate(there);
      IndexOfDate(periodEnd);
    }
    hide AddMonths, MonthsAfter;
  }

  /** The term in months is the nearest whole number of 30.44-day months, and at least one. */
  predicate TermIs(start: Date, end: Date, n: int) {
    var days := DayNumber(end) - DayNumber(start);
    n >= 1 && (if n == 1 then 200 * days <= 3 * 3044 else -3044 <= 2 * (100 * days - 3044 * n) <= 3044)
  }

  lemma TotalMonthsIs(start: Date, end: Date, n: int)
    ensures TotalMonths(start, end) == n <==> TermIs(start, end, n)
  {
    var days := DayNumber(end) - DayNumber(start);
    hide DayNumber, HalfEven;
    NoHalf(days, n);
    NoHalf(days, n - 1);
    NoHalf(days, HalfEven(100 * days, 3044));
    NoHalf(days, HalfEven(100 * days, 3044) - 1);
    if -3044 <= 2 * (100 * days - 3044 * n) <= 3044 {
      NearestTwo(100 * days, 3044, HalfEven(100 * days, 3044), n);
    }
  }

  /** The quotient `100 * days / 3044` is never halfway between two integers, so how `round` breaks
      ties is irrelevant to `TotalMonths`. */
  lemma NoTies(days: int, k: int)
    ensures 2 * (100 * days - 3044 * k) != 3044
    ensures HalfEven(100 * days, 3044) == HalfUp(100 * days, 3044)
  {
    hide HalfEven, HalfUp;
    var q := HalfEven(100 * days, 3044);
    NoHalf(days, k);
    NoHalf(days, q);
    NoHalf(days, q - 1);
    NearestIsUnique(100 * days, q, HalfUp(100 * days, 3044));
  }

  lemma NoHalf(days: int, k: int)
    ensures 200 * days - 6088 * k != 3044
  {
    var half := 25 * days - 761 * k;
    assert 200 * days - 6088 * k == 8 * half;
  }

  /** Only a tie has two nearest integers. */
  lemma NearestIsUnique(n: int, q: int, r: int)
    requires -3044 <= 2 * (n - 3044 * q) <= 3044 && -3044 <= 2 * (n - 3044 * r) <= 3044
    requires 2 * (n - 3044 * q) != 3044 && 2 * (n - 3044 * (q - 1)) != 3044
    ensures q == r
  {}

  lemma TermOf(start: Date, end: Date, days: int, months: int)
    requires months >= 1 && HalfEven(100 * days, 3044) == months
    ensures DayNumber(end) - DayNumber(start) == days ==> TotalMonths(start, end) == months
  {}

  // ----- The 30.44-day month against the real calendar ------------------------------------------

  /** How many leap days a span of years must hold, in the three cases of one, two or three century years
      without one. */
  predicate EnoughLeaps(leap: int, years: int) {
    || 4 * leap >= years - 7
    || (leap >= 24 && 4 * leap >= years - 11)
    || (leap >= 48 && 4 * leap >= years - 15)
  }

  lemma LeapSpan(a: int, n: int)
    requires 0 <= n <= 311
    ensures EnoughLeaps(LeapDays(a + n) - LeapDays(a), n)
  {
    var c, c' := a / 100, (a + n) / 100;
    var fours := (a + n) / 4 - a / 4;
    assert c <= c' <= c + 4;
    assert a / 400 == c / 4 && (a + n) / 400 == c' / 4;
    assert c' / 4 - c / 4 >= c' - c - 3 && c' / 4 >= c / 4;
    assert 4 * fours >= n - 3;
    Quarters(a, c, (a + n), c');
  }

  lemma Quarters(a: int, c: int, b: int, c': int)
    requires c == a / 100 && c' == b / 100
    ensures b / 4 - a / 4 >= 25 * (c' - c - 1) + 1
  {}

  /** By how much the month lengths of a part-year, leap days apart, fall short of 30.44 days a month (in
      1/200 day): `m2` past February and `m1` not, both on one side of it, or the other way round. */
  lemma MonthShape(m1: int, m2: int)
    requires 1 <= m1 <= 12 && 1 <= m2 <= 12
    ensures var base := 200 * (DaysBeforeMonth(m2) - DaysBeforeMonth(m1)) - 6088 * (m2 - m1);
      base >= if m1 <= 2 < m2 then -488 else if m2 <= 2 < m1 then 80 else -296
  {}

  /** The months past the year-end for which a period that starts `late` days after it is sure to be long
      enough. */
  function Horizon(late: nat): (n: int)
    ensures n >= 1
  {
    match late
    case 0 => 3720
    case 1 => 3336
    case 2 => 2952
    case 3 => 2520
    case 4 => 2436
    case 5 => 2136
    case 6 => 1752
    case 7 => 1320
    case 8 => 1236
    case 9 => 936
    case 10 => 552
    case 11 => 120
    case 12 => 36
    case 13 => 2
    case _ => 1
  }

  lemma HorizonShrinks(late: nat, later: nat)
    requires late <= later
    ensures Horizon(later) <= Horizon(late)
  {}

  /** `k` years and `side` leap years more or less, on the linear scale of 1/200 day. */
  lemma SpanSlack(late: nat, k: int, side: int, base: int, leap: int)
    requires late <= 12 && k >= 0 && -1 <= side <= 1 && k + side >= 0 && EnoughLeaps(leap, k + side) && leap >= 0
    requires if side == 1 then 12 * k + 1 <= Horizon(late) else 12 * k <= Horizon(late)
    requires base >= if side == 1 then -488 else if side == 0 then -296 else 80
    ensures 3044 - 56 * k + 200 * leap + base > 200 * late
  {}

  function Side(m1: int, m2: int): int {
    (if m2 > 2 then 1 else 0) - (if m1 > 2 then 1 else 0)
  }

  lemma LeapsInSpan(y1: int, m1: int, y2: int, m2: int)
    requires 1 <= m1 <= 12 && 1 <= m2 <= 12 && 0 <= 12 * (y2 - y1) + m2 - m1 <= 3720
    ensures var leap := LeapDays(LeapYearsTo(y2, m2)) - LeapDays(LeapYearsTo(y1, m1));
      leap >= 0 && EnoughLeaps(leap, y2 - y1 + Side(m1, m2))
    ensures y2 - y1 >= 0 && y2 - y1 + Side(m1, m2) >= 0
  {
    var a, n := LeapYearsTo(y1, m1), LeapYearsTo(y2, m2) - LeapYearsTo(y1, m1);
    assert n == y2 - y1 + Side(m1, m2) && 0 <= n <= 311;
    LeapSpan(a, n);
    LeapsGrow(a, n);
    hide LeapDays, EnoughLeaps;
  }

  lemma LeapsGrow(a: int, n: nat)
    ensures LeapDays(a) <= LeapDays(a + n)
  {
    var c, c' := a / 100, (a + n) / 100;
    assert a / 400 == c / 4 && (a + n) / 400 == c' / 4;
    Quarters(a, c, a + n, c');
  }

  lemma SpanOfMonths(late: nat, y1: int, m1: int, y2: int, m2: int)
    requires late <= 12 && 1 <= m1 <= 12 && 1 <= m2 <= 12 && 0 <= 12 * (y2 - y1) + m2 - m1 <= Horizon(late)
    ensures 200 * (DaysBefore(y2, m2) - DaysBefore(y1, m1) - late) > 3044 * (2 * (12 * (y2 - y1) + m2 - m1) - 1)
  {
    HorizonShrinks(0, late);
    LeapsInSpan(y1, m1, y2, m2);
    MonthShape(m1, m2);
    WholeYears(late, y2 - y1, m1, m2);
    hide LeapDays, DaysBeforeMonth, EnoughLeaps, Horizon, LeapYearsTo;
    SpanSlack(late, y2 - y1, Side(m1, m2), 200 * (DaysBeforeMonth(m2) - DaysBeforeMonth(m1)) - 6088 * (m2 - m1),
              LeapDays(LeapYearsTo(y2, m2)) - LeapDays(LeapYearsTo(y1, m1)));
  }

  /** The horizons end with whole years. */
  lemma WholeYears(late: nat, k: int, m1: int, m2: int)
    requires late <= 12 && 1 <= m1 <= 12 && 1 <= m2 <= 12 && 0 <= 12 * k + m2 - m1 <= Horizon(late)
    ensures if Side(m1, m2) == 1 then 12 * k + 1 <= Horizon(late) else 12 * k <= Horizon(late)
  {}

  /** Whole calendar months within the horizon are long enough to round to their number, even `late` days
      short. */
  lemma MonthsLongEnough(late: nat, i: int, n: int)
    requires late <= 13 && 0 <= n <= Horizon(late) && (late == 13 ==> n == 2)
    ensures 200 * (MonthStart(i + n) - MonthStart(i) - late) > 3044 * (2 * n - 1)
  {
    hide *;
    if late <= 12 {
      MonthsOfSpan(late, i, n);
    } else {
      TwoMonthsSpan(i);
    }
  }

  lemma MonthsOfSpan(late: nat, i: int, n: int)
    requires late <= 12 && 0 <= n <= Horizon(late)
    ensures 200 * (MonthStart(i + n) - MonthStart(i) - late) > 3044 * (2 * n - 1)
  {
    hide Horizon, DaysBefore;
    SpanOfMonths(late, i / 12, i % 12 + 1, (i + n) / 12, (i + n) % 12 + 1);
  }

  lemma TwoMonthsSpan(i: int)
    ensures MonthStart(i + 2) - MonthStart(i) >= 59
  {
    hide MonthStart, IndexLength;
    MonthsAbut(i);
    MonthsAbut(i + 1);
    TwoMonths(i);
  }

  lemma TwoMonths(i: int)
    ensures IndexLength(i) + IndexLength(i + 1) >= 59
  {}

  lemma RoundsUpTo(start: Date, end: Date, n: int)
    requires 200 * (DayNumber(end) - DayNumber(start)) > 3044 * (2 * n - 1)
    ensures TotalMonths(start, end) >= n
  {
    HalfEvenAtLeast(DayNumber(end) - DayNumber(start), n);
  }

  lemma HalfEvenAtLeast(days: int, n: int)
    requires 200 * days > 3044 * (2 * n - 1)
    ensures HalfEven(100 * days, 3044) >= n
  {}

  /** The whole months after the year-end are whole calendar months of real days, counted from the
      year-end's own month or from the month after it. */
  lemma MonthsAfterSpan(yearEnd: Date, periodEnd: Date)
    requires Before(yearEnd, periodEnd)
    ensures var n, i := MonthsAfter(yearEnd, periodEnd), MonthIndex(yearEnd);
      var days := DayNumber(periodEnd) - DayNumber(yearEnd);
      days >= MonthStart(i + n) - MonthStart(i) || days >= MonthStart(i + 1 + n) - MonthStart(i + 1)
  {
    MonthEndDay(yearEnd);
    MonthEndDay(periodEnd);
    hide MonthStart, MonthLength;
    var i, j := MonthIndex(yearEnd), MonthIndex(periodEnd);
    if periodEnd.d >= yearEnd.d {
      assert i + MonthsAfter(yearEnd, periodEnd) == j;
    } else if IsMonthEnd(yearEnd) && IsMonthEnd(periodEnd) {
      assert i + 1 + MonthsAfter(yearEnd, periodEnd) == j + 1;
    } else {
      assert i + 1 + MonthsAfter(yearEnd, periodEnd) == j;
    }
  }

  lemma DaysAfterYearEnd(late: nat, yearEnd: Date, periodEnd: Date)
    requires Before(yearEnd, periodEnd)
    requires late <= 13 && 2 <= MonthsAfter(yearEnd, periodEnd) <= Horizon(late)
    ensures 200 * (DayNumber(periodEnd) - DayNumber(yearEnd) - late) > 3044 * (2 * MonthsAfter(yearEnd, periodEnd) - 1)
  {
    hide *;
    AtThirteen();
    var n, i := MonthsAfter(yearEnd, periodEnd), MonthIndex(yearEnd);
    MonthsAfterSpan(yearEnd, periodEnd);
    MonthsLongEnough(late, i, n);
    MonthsLongEnough(late, i + 1, n);
  }

  lemma AtThirteen()
    ensures Horizon(13) == 2
  {}

  // ----- When the months after the year-end fit the term -----------------------------------------

  /** How many days after the year-end a period starts, if it does. */
  function Lateness(start: Date, yearEnd: Date): nat {
    Max(0, DayNumber(start) - DayNumber(yearEnd))
  }

  lemma BeyondFourteen(late: nat)
    ensures late >= 14 ==> Horizon(late) == 1
  {}

  /** The months released later never outnumber the term, within the horizon that belongs to the start of the
      period. */
  lemma MonthsAfterWithinTerm(start: Date, yearEnd: Date, periodEnd: Date)
    requires Before(yearEnd, periodEnd) && MonthsAfter(yearEnd, periodEnd) <= Horizon(Lateness(start, yearEnd))
    ensures MonthsAfter(yearEnd, periodEnd) <= TotalMonths(start, periodEnd)
  {
    var late, n := Lateness(start, yearEnd), MonthsAfter(yearEnd, periodEnd);
    BeyondFourteen(late);
    hide Horizon, MonthsAfter, DayNumber, HalfEven;
    if n >= 2 {
      DaysAfterYearEnd(late, yearEnd, periodEnd);
      RoundsUpTo(start, periodEnd, n);
    }
  }

  ghost predicate FitsTerm(late: nat, limit: int, start: Date, yearEnd: Date, periodEnd: Date) {
    Lateness(start, yearEnd) <= late && Before(yearEnd, periodEnd) && MonthsAfter(yearEnd, periodEnd) <= limit
    ==> MonthsAfter(yearEnd, periodEnd) <= TotalMonths(start, periodEnd)
  }

  ghost predicate AllFitTerm(late: nat, limit: int) {
    forall start: Date, yearEnd: Date, periodEnd: Date :: FitsTerm(late, limit, start, yearEnd, periodEnd)
  }

  /** Every horizon is sharp: of the periods that start at most `late` days after the year-end, all those with
      at most `limit` months after it fit their term exactly when `limit` is within `Horizon(late)`. */
  lemma HorizonIsExact(late: nat, limit: int)
    ensures AllFitTerm(late, limit) <==> limit <= Horizon(late)
  {
    hide Horizon, FitsTerm;
    if limit <= Horizon(late) {
      forall start: Date, yearEnd: Date, periodEnd: Date
        ensures FitsTerm(late, limit, start, yearEnd, periodEnd)
      {
        ShortPeriodFits(late, limit, start, yearEnd, periodEnd);
      }
    } else {
      var start, yearEnd, periodEnd := Misfit(late);
      MisfitFails(late, limit, start, yearEnd, periodEnd);
    }
  }

  lemma ShortPeriodFits(late: nat, limit: int, start: Date, yearEnd: Date, periodEnd: Date)
    requires limit <= Horizon(late)
    ensures FitsTerm(late, limit, start, yearEnd, periodEnd)
  {
    if Lateness(start, yearEnd) <= late {
      HorizonShrinks(Lateness(start, yearEnd), late);
      hide Horizon, MonthsAfter, TotalMonths, Lateness;
      if Before(yearEnd, periodEnd) && MonthsAfter(yearEnd, periodEnd) <= limit {
        MonthsAfterWithinTerm(start, yearEnd, periodEnd);
      }
    }
  }

  /** A period one month past the horizon whose term is too short. */
  ghost predicate IsMisfit(late: nat, start: Date, yearEnd: Date, periodEnd: Date) {
    && Lateness(start, yearEnd) <= late && Before(yearEnd, periodEnd) && OnOrBefore(start, periodEnd)
    && MonthsAfter(yearEnd, periodEnd) == Horizon(late) + 1
    && TotalMonths(start, periodEnd) <= Horizon(late)
  }

  lemma MisfitFails(late: nat, limit: int, start: Date, yearEnd: Date, periodEnd: Date)
    requires limit > Horizon(late) && IsMisfit(late, start, yearEnd, periodEnd)
    ensures !FitsTerm(late, limit, start, yearEnd, periodEnd)
  {
    hide Horizon, MonthsAfter, TotalMonths, Lateness, Before;
  }

  /** From the end of January, or that many days later, to the end of February `years` years on. */
  lemma JanuaryToFebruary(late: nat, y: int, years: nat, leap: int)
    returns (start: Date, yearEnd: Date, periodEnd: Date)
    requires late <= 12 && !IsLeap(y + years) && leap == LeapDays(y + years - 1) - LeapDays(y - 1)
    ensures DayNumber(start) == DayNumber(yearEnd) + late
    ensures DayNumber(periodEnd) == DayNumber(yearEnd) + 365 * years + 28 + leap
    ensures Before(yearEnd, periodEnd) && MonthsAfter(yearEnd, periodEnd) == 12 * years + 1
  {
    yearEnd, periodEnd := RawDate(y, 1, 31), RawDate(y + years, 2, 28);
    start := if late == 0 then yearEnd else RawDate(y, 2, late);
    IndexOfDate(yearEnd);
    IndexOfDate(periodEnd);
    IndexOfDate(start);
    hide LeapDays, IsLeap;
  }

  lemma TermTooShort(start: Date, end: Date, n: int)
    requires n >= 2 && 200 * (DayNumber(end) - DayNumber(start)) < 3044 * (2 * n - 1)
    ensures TotalMonths(start, end) < n
  {
    RoundsBelow(DayNumber(end) - DayNumber(start), n);
    hide HalfEven, DayNumber;
  }

  lemma RoundsBelow(days: int, n: int)
    requires 200 * days < 3044 * (2 * n - 1)
    ensures HalfEven(100 * days, 3044) < n
  {}

  /** Spans with few leap days, one for each lateness. */
  function FirstYear(late: nat): int {
    match late
    case 0 => 1601
    case 1 => 1625
    case 2 => 1657
    case 3 => 1693
    case 4 => 1697
    case 5 => 1625
    case 6 => 1657
    case 7 => 1693
    case 8 => 1697
    case 9 => 1625
    case 10 => 1657
    case 11 => 1693
    case _ => 1697
  }

  predicate ShortSpan(late: nat, y: int, years: int) {
    && !IsLeap(y + years)
    && 200 * (365 * years + 28 + LeapDays(y + years - 1) - LeapDays(y - 1) - late) < 3044 * (24 * years + 1)
  }

  lemma SpansAreShort(late: nat)
    requires late <= 12
    ensures Horizon(late) % 12 == 0 && ShortSpan(late, FirstYear(late), Horizon(late) / 12)
  {
    match late
    case 0 => assert ShortSpan(0, 1601, 310);
    case 1 => assert ShortSpan(1, 1625, 278);
    case 2 => assert ShortSpan(2, 1657, 246);
    case 3 => assert ShortSpan(3, 1693, 210);
    case 4 => assert ShortSpan(4, 1697, 203);
    case 5 => assert ShortSpan(5, 1625, 178);
    case 6 => assert ShortSpan(6, 1657, 146);
    case 7 => assert ShortSpan(7, 1693, 110);
    case 8 => assert ShortSpan(8, 1697, 103);
    case 9 => assert ShortSpan(9, 1625, 78);
    case 10 => assert ShortSpan(10, 1657, 46);
    case 11 => assert ShortSpan(11, 1693, 10);
    case _ => assert ShortSpan(12, 1697, 3);
  }

  lemma MisfitFrom(late: nat, y: int, years: nat) returns (start: Date, yearEnd: Date, periodEnd: Date)
    requires late <= 12 && years > 0 && Horizon(late) == 12 * years && ShortSpan(late, y, years)
    ensures IsMisfit(late, start, yearEnd, periodEnd)
  {
    var leap := LeapDays(y + years - 1) - LeapDays(y - 1);
    start, yearEnd, periodEnd := JanuaryToFebruary(late, y, years, leap);
    TermTooShort(start, periodEnd, 12 * years + 1);
    LeapsGrow(y - 1, years);
    DayNumberOrder(start, periodEnd);
    hide Horizon, MonthsAfter, TotalMonths, DayNumber, LeapDays, IsLeap, Before;
  }

  lemma Misfit(late: nat) returns (start: Date, yearEnd: Date, periodEnd: Date)
    ensures IsMisfit(late, start, yearEnd, periodEnd)
  {
    hide IsMisfit, ShortSpan, FirstYear, Horizon;
    if late >= 13 {
      start, yearEnd, periodEnd := SpringMisfit(late);
    } else {
      SpansAreShort(late);
      start, yearEnd, periodEnd := MisfitFrom(late, FirstYear(late), Horizon(late) / 12);
    }
  }

  /** From mid-February 2027 to the end of April or March. */
  lemma SpringMisfit(late: nat) returns (start: Date, yearEnd: Date, periodEnd: Date)
    requires late >= 13
    ensures IsMisfit(late, start, yearEnd, periodEnd)
  {
    SpringDays();
    SpringMonths();
    AtThirteen();
    BeyondFourteen(late);
    hide DayNumber, TotalMonths, MonthsAfter, Horizon;
    yearEnd := RawDate(2027, 1, 31);
    if late == 13 {
      start, periodEnd := RawDate(2027, 2, 13), RawDate(2027, 4, 30);
      TermTooShort(start, periodEnd, 3);
    } else {
      start, periodEnd := RawDate(2027, 2, 14), RawDate(2027, 3, 31);
      TermTooShort(start, periodEnd, 2);
    }
  }

  lemma SpringMonths()
    ensures MonthsAfter(RawDate(2027, 1, 31), RawDate(2027, 4, 30)) == 3
    ensures MonthsAfter(RawDate(2027, 1, 31), RawDate(2027, 3, 31)) == 2
  {}

  lemma SpringDays()
    ensures DayNumber(RawDate(2027, 2, 13)) == DayNumber(RawDate(2027, 1, 31)) + 13
    ensures DayNumber(RawDate(2027, 2, 14)) == DayNumber(RawDate(2027, 1, 31)) + 14
    ensures DayNumber(RawDate(2027, 4, 30)) == DayNumber(RawDate(2027, 2, 13)) + 76
    ensures DayNumber(RawDate(2027, 3, 31)) == DayNumber(RawDate(2027, 2, 14)) + 45
  {
    MonthsAbut(24324);
    MonthsAbut(24325);
    MonthsAbut(24326);
    hide MonthStart;
  }
}
