/** The prepayment review (`prepayments.py`): how much of an expense line falls after the year-end,
    and the month-by-month release of that share. Money is in whole pence. */
module Prepayments {
  import opened Rounding
  import opened Calendar
  import opened Terms

  /** The period a description covers. */
  datatype Period = Period(start: Date, end: Date)

  lemma DaysOfLatePeriod()
    ensures DayNumber(RawDate(2027, 8, 31)) - DayNumber(RawDate(2027, 3, 1)) == 183
  {
    assert MonthStart(24331) == 740193;
    assert MonthStart(24326) == 740040;
  }

  // ----- The split -----------------------------------------------------------------------------

  /** The figures of one flag. */
  datatype Split = Split(monthsAfter: int, totalMonths: int, prepaid: int, monthly: int, thisYear: int)

  function SplitExpense(amount: int, yearEnd: Date, start: Date, end: Date): Split {
    var after, total := MonthsAfter(yearEnd, end), TotalMonths(start, end);
    var prepaid := HalfEven(after * amount, total);
    Split(after, total, prepaid, HalfEven(amount, total), amount - prepaid)
  }

  /** Exactly when the prepaid share stays within the expense: the months after the year-end exceed
      the term by nothing, or by so little of so small an amount that rounding hides it. */
  lemma PrepaidWithinExpense(amount: int, yearEnd: Date, start: Date, end: Date)
    requires amount >= 0
    ensures var s := SplitExpense(amount, yearEnd, start, end);
      var excess := 2 * ((s.monthsAfter - s.totalMonths) * amount);
      s.prepaid <= amount <==> excess < s.totalMonths || (excess == s.totalMonths && amount % 2 == 0)
  {
    hide MonthsAfter, TotalMonths, HalfEven;
    RoundedShareWithin(amount, MonthsAfter(yearEnd, end), TotalMonths(start, end));
  }

  lemma RoundedShareWithin(amount: int, after: int, total: int)
    requires amount >= 0 && total >= 1
    ensures var excess := 2 * ((after - total) * amount);
      HalfEven(after * amount, total) <= amount <==> excess < total || (excess == total && amount % 2 == 0)
  {
    var rest := (after - total) * amount;
    assert after * amount == rest + amount * total;
    hide HalfEven;
    RoundedAt(amount, rest, total, after * amount);
  }

  /** A period that starts only after the year-end has no such guarantee: of six months' cover bought in
      advance, eight months are counted after the year-end, so of an expense of 1,200.00 an amount of
      1,600.00 is called prepaid and this year's share is negative. */
  lemma LateStartExceedsTerm()
    ensures var s := SplitExpense(120000, RawDate(2026, 12, 31), RawDate(2027, 3, 1), RawDate(2027, 8, 31));
      s.monthsAfter == 8 && s.totalMonths == 6 && s.prepaid == 160000 && s.thisYear == -40000
  {
    DaysOfLatePeriod();
    TermOf(RawDate(2027, 3, 1), RawDate(2027, 8, 31), 183, 6);
    LateMonths();
    LateShare();
    hide MonthsAfter, TotalMonths, HalfEven, DayNumber;
  }

  lemma LateShare()
    ensures HalfEven(8 * 120000, 6) == 160000
  {}

  lemma LateMonths()
    ensures MonthsAfter(RawDate(2026, 12, 31), RawDate(2027, 8, 31)) == 8
  {}

  lemma RoundedAt(k: int, rest: int, d: int, n: int)
    requires d >= 1 && n == rest + k * d
    ensures HalfEven(n, d) <= k <==> 2 * rest < d || (2 * rest == d && k % 2 == 0)
  {
    if 0 <= rest < d {
      QuotientIs(n, d, k, rest);
    } else if rest < 0 {
      HalfEvenBounds(n, d, k);
    } else {
      assert (k + 1) * d == k * d + d;
      HalfEvenBounds(n, d, k + 1);
    }
  }

  /** The expense is split without loss, and within the horizon of the period's start both parts are shares
      of it. */
  lemma SplitConserves(amount: int, yearEnd: Date, start: Date, end: Date)
    requires amount >= 0 && Before(yearEnd, end)
    requires MonthsAfter(yearEnd, end) <= Horizon(Lateness(start, yearEnd))
    ensures var s := SplitExpense(amount, yearEnd, start, end);
      s.prepaid + s.thisYear == amount && 0 <= s.prepaid <= amount && 0 <= s.thisYear <= amount
  {
    var after, total := MonthsAfter(yearEnd, end), TotalMonths(start, end);
    MonthsAfterWithinTerm(start, yearEnd, end);
    ShareOf(amount, after, total);
  }

  lemma ShareOf(amount: int, after: int, total: int)
    requires amount >= 0 && total >= 1 && 0 <= after <= total
    ensures 0 <= HalfEven(after * amount, total) <= amount
  {
    MulLe(amount, after, total);
    assert 0 * total <= after * amount <= amount * total;
    HalfEvenBounds(after * amount, total, amount);
    HalfEvenBounds(after * amount, total, 0);
  }

  // ----- The release table ---------------------------------------------------------------------

  datatype Release = Release(month: Date, release: int, remaining: int)

  function ReleaseAt(yearEnd: Date, monthsAfter: nat, monthly: int, prepaid: int, i: nat): Release {
    Release(EndOfMonth(AddMonths(yearEnd, i + 1)), monthly,
            if i == monthsAfter - 1 then 0 else Max(prepaid - monthly * (i + 1), 0))
  }

  /** One row for each month after the year-end: `i` months on, all counted from the year-end itself. */
  function ReleaseTable(yearEnd: Date, monthsAfter: nat, monthly: int, prepaid: int): (rows: seq<Release>)
    ensures |rows| == monthsAfter
  {
    seq(monthsAfter, i requires 0 <= i => ReleaseAt(yearEnd, monthsAfter, monthly, prepaid, i))
  }

  /** Stepping a month end by one month and going to its month's end lands where counting from the
      year-end lands, although both additions clamp. */
  lemma NextMonthEnd(yearEnd: Date, cursor: Date, i: nat)
    requires MonthIndex(cursor) == MonthIndex(yearEnd) + i
    ensures EndOfMonth(AddMonths(cursor, 1)) == EndOfMonth(AddMonths(yearEnd, i + 1))
  {
    MonthEndByIndex(EndOfMonth(AddMonths(cursor, 1)), EndOfMonth(AddMonths(yearEnd, i + 1)));
  }

  /** `_release_schedule`: the table is built month by month with a moving `cursor`. */
  method ReleaseSchedule(yearEnd: Date, monthsAfter: nat, monthly: int, prepaid: int) returns (rows: seq<Release>)
    ensures rows == ReleaseTable(yearEnd, monthsAfter, monthly, prepaid)
  {
    hide EndOfMonth, AddMonths, MonthIndex;
    rows := [];
    var cursor := yearEnd;
    for i := 0 to monthsAfter
      invariant rows == ReleaseTable(yearEnd, monthsAfter, monthly, prepaid)[..i]
      invariant MonthIndex(cursor) == MonthIndex(yearEnd) + i
    {
      NextMonthEnd(yearEnd, cursor, i);
      cursor := EndOfMonth(AddMonths(cursor, 1));
      var remaining := if i == monthsAfter - 1 then 0 else prepaid - monthly * (i + 1);
      rows := rows + [Release(cursor, monthly, Max(remaining, 0))];
    }
  }

  function TableOf(s: Split, yearEnd: Date): seq<Release>
    requires s.monthsAfter >= 0
  {
    ReleaseTable(yearEnd, s.monthsAfter, s.monthly, s.prepaid)
  }

  /** The months of the table are the consecutive month ends after the year-end. */
  lemma ReleaseMonths(yearEnd: Date, monthsAfter: nat, monthly: int, prepaid: int, i: nat)
    requires i < monthsAfter
    ensures var rows := ReleaseTable(yearEnd, monthsAfter, monthly, prepaid);
      && IsMonthEnd(rows[i].month) && MonthIndex(rows[i].month) == MonthIndex(yearEnd) + 1 + i
      && Before(yearEnd, rows[i].month)
      && (i > 0 ==>
            DayNumber(rows[i].month) == DayNumber(rows[i - 1].month) + MonthLength(rows[i].month.y, rows[i].month.m))
  {
    var rows := ReleaseTable(yearEnd, monthsAfter, monthly, prepaid);
    if i > 0 {
      AdjacentMonthEnds(rows[i - 1].month, rows[i].month);
    }
    hide DayNumber, EndOfMonth, AddMonths;
  }

  lemma AdjacentMonthEnds(a: Date, b: Date)
    requires IsMonthEnd(a) && IsMonthEnd(b) && MonthIndex(b) == MonthIndex(a) + 1
    ensures DayNumber(b) == DayNumber(a) + MonthLength(b.y, b.m)
  {
    MonthEndDay(a);
    MonthEndDay(b);
    MonthsAbut(MonthIndex(b));
    IndexOfDate(b);
    hide DayNumber, MonthStart, MonthLength;
  }

  /** What a table says of a split: instalments of one size, a remaining balance that stays within the
      prepaid share, never grows and ends at nothing, and a sum of instalments that misses the prepaid
      share by at most half a penny each plus half a penny. */
  ghost predicate ReleasesShare(s: Split, rows: seq<Release>) {
    && |rows| == s.monthsAfter
    && (forall i :: 0 <= i < |rows| ==> 0 <= rows[i].remaining <= s.prepaid && rows[i].release == s.monthly)
    && (forall i, j :: 0 <= i < j < |rows| ==> rows[j].remaining <= rows[i].remaining)
    && (rows != [] ==> rows[|rows| - 1].remaining == 0)
    && -(s.monthsAfter + 1) <= 2 * (s.prepaid - s.monthsAfter * s.monthly) <= s.monthsAfter + 1
  }

  lemma TableReleasesShare(amount: int, yearEnd: Date, start: Date, end: Date)
    requires amount >= 0
    ensures var s := SplitExpense(amount, yearEnd, start, end); ReleasesShare(s, TableOf(s, yearEnd))
  {
    var s := SplitExpense(amount, yearEnd, start, end);
    hide SplitExpense, HalfEven, ReleasesShare;
    SplitSigns(amount, yearEnd, start, end);
    TableShrinks(s, yearEnd);
  }

  lemma SplitSigns(amount: int, yearEnd: Date, start: Date, end: Date)
    requires amount >= 0
    ensures var s := SplitExpense(amount, yearEnd, start, end);
      && s.monthsAfter >= 0 && s.prepaid >= 0 && s.monthly >= 0
      && -(s.monthsAfter + 1) <= 2 * (s.prepaid - s.monthsAfter * s.monthly) <= s.monthsAfter + 1
  {
    hide MonthsAfter, TotalMonths, HalfEven;
    var after, total := MonthsAfter(yearEnd, end), TotalMonths(start, end);
    HalfEvenBounds(amount, total, 0);
    MulLe(amount, 0, after);
    HalfEvenBounds(after * amount, total, 0);
    InstalmentsDrift(after, amount, total);
  }

  lemma TableShrinks(s: Split, yearEnd: Date)
    requires s.monthsAfter >= 0 && s.prepaid >= 0 && s.monthly >= 0
    requires -(s.monthsAfter + 1) <= 2 * (s.prepaid - s.monthsAfter * s.monthly) <= s.monthsAfter + 1
    ensures ReleasesShare(s, TableOf(s, yearEnd))
  {
    hide EndOfMonth, AddMonths;
    var rows := TableOf(s, yearEnd);
    forall i, j | 0 <= i < j < |rows|
      ensures rows[j].remaining <= rows[i].remaining
    {
      MulLe(s.monthly, i + 1, j + 1);
    }
    forall i | 0 <= i < |rows|
      ensures rows[i].remaining <= s.prepaid
    {
      MulLe(s.monthly, 0, i + 1);
    }
  }

  lemma InstalmentsDrift(n: int, amount: int, total: int)
    requires n >= 0 && total >= 1
    ensures var prepaid, monthly := HalfEven(n * amount, total), HalfEven(amount, total);
      -(n + 1) <= 2 * (prepaid - n * monthly) <= n + 1
  {
    DriftOfNearest(n, amount, total, HalfEven(n * amount, total), HalfEven(amount, total));
  }

  lemma DriftOfNearest(n: int, amount: int, total: int, prepaid: int, monthly: int)
    requires n >= 0 && total >= 1
    requires -total <= 2 * (n * amount - total * prepaid) <= total
    requires -total <= 2 * (amount - total * monthly) <= total
    ensures -(n + 1) <= 2 * (prepaid - n * monthly) <= n + 1
  {
    var gap := prepaid - n * monthly;
    MulLe(n, -total, 2 * (amount - total * monthly));
    MulLe(n, 2 * (amount - total * monthly), total);
    Regroup(n, total, amount, prepaid, monthly);
    CancelLe(total, -(n + 1), 2 * gap);
    CancelLe(total, 2 * gap, n + 1);
  }

  lemma Regroup(n: int, total: int, amount: int, prepaid: int, monthly: int)
    ensures total * (2 * (prepaid - n * monthly))
      == n * (2 * (amount - total * monthly)) - 2 * (n * amount - total * prepaid)
    ensures n * -total == -(n * total)
    ensures total * (n + 1) == n * total + total && total * -(n + 1) == -(n * total) - total
  {
    assert total * (n * monthly) == n * (total * monthly);
  }

  lemma CancelLe(d: int, a: int, b: int)
    requires d > 0 && d * a <= d * b
    ensures a <= b
  {}
}
