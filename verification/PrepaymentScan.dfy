/** The prepayment review over a ledger (`_find_prepayments`): which expense lines are flagged, with which
    figures. Money is in whole pence. */
module PrepaymentScan {
  import opened Wrappers
  import opened Rounding
  import opened Calendar
  import opened Prepayments
  import opened Terms

  /** One account line; `period` is what its description was read as, if anything. */
  datatype Posting = Posting(line: nat, account: string, amount: Option<int>, period: Option<Period>)

  datatype Purchase = Purchase(id: string, isCredit: bool, date: Date, postings: seq<Posting>)

  type Month = m: int | 1 <= m <= 12 witness 12
  type Day = d: int | 1 <= d <= 31 witness 31

  datatype Settings = Settings(minAmount: int, month: Month, day: Day, expense: set<string>)

  datatype Flag = Flag(docId: string, line: nat, period: Period, yearEnd: Date, split: Split, releases: seq<Release>)

  // ----- One line ------------------------------------------------------------------------------

  /** A debit or credit to an expense account, above the review threshold. */
  predicate Reviewable(l: Posting, s: Settings) {
    l.account != "" && l.account in s.expense && l.amount.Some? && Abs(l.amount.value) > s.minAmount
  }

  /** At least one whole month of the period falls after the year-end. */
  predicate RunsOver(p: Period, yearEnd: Date) {
    Before(yearEnd, p.end) && MonthsAfter(yearEnd, p.end) >= 1
  }

  predicate IsPrepayment(l: Posting, yearEnd: Date, s: Settings) {
    Reviewable(l, s) && l.period.Some? && RunsOver(l.period.value, yearEnd)
  }

  function FlagOf(id: string, l: Posting, yearEnd: Date): Flag
    requires l.amount.Some? && l.period.Some?
  {
    var p := l.period.value;
    var split := SplitExpense(Abs(l.amount.value), yearEnd, p.start, p.end);
    var table := ReleaseTable(yearEnd, MonthsAfter(yearEnd, p.end), split.monthly, split.prepaid);
    Flag(id, l.line, p, yearEnd, split, table)
  }

  function FlagsOfLines(id: string, ls: seq<Posting>, yearEnd: Date, s: Settings): seq<Flag> {
    if ls == [] then []
    else
      var l := ls[|ls| - 1];
      FlagsOfLines(id, ls[..|ls| - 1], yearEnd, s)
      + if IsPrepayment(l, yearEnd, s) then [FlagOf(id, l, yearEnd)] else []
  }

  function FlagsOf(p: Purchase, s: Settings): seq<Flag> {
    if p.isCredit then [] else FlagsOfLines(p.id, p.postings, YearEndFor(p.date, s.month, s.day), s)
  }

  function AllPrepayments(ps: seq<Purchase>, s: Settings): seq<Flag> {
    if ps == [] then [] else AllPrepayments(ps[..|ps| - 1], s) + FlagsOf(ps[|ps| - 1], s)
  }

  // ----- The scan ------------------------------------------------------------------------------

  method ScanPosting(id: string, l: Posting, yearEnd: Date, s: Settings) returns (flags: seq<Flag>)
    ensures flags == if IsPrepayment(l, yearEnd, s) then [FlagOf(id, l, yearEnd)] else []
  {
    hide MonthsAfter, TotalMonths, HalfEven, ReleaseTable;
    flags := [];
    if Reviewable(l, s) && l.period.Some? {
      var p, amount := l.period.value, Abs(l.amount.value);
      if Before(yearEnd, p.end) {
        var after := MonthsAfter(yearEnd, p.end);
        if after >= 1 {
          var total := TotalMonths(p.start, p.end);
          var prepaid := HalfEven(after * amount, total);
          var monthly := HalfEven(amount, total);
          var releases := ReleaseSchedule(yearEnd, after, monthly, prepaid);
          flags := [Flag(id, l.line, p, yearEnd, Split(after, total, prepaid, monthly, amount - prepaid), releases)];
        }
      }
    }
  }

  method FindPrepayments(ps: seq<Purchase>, s: Settings) returns (flagged: seq<Flag>)
    ensures flagged == AllPrepayments(ps, s)
  {
    hide IsPrepayment, FlagOf, YearEndFor;
    flagged := [];
    for n := 0 to |ps|
      invariant flagged == AllPrepayments(ps[..n], s)
    {
      assert ps[..n + 1][..n] == ps[..n];
      var p := ps[n];
      if !p.isCredit {
        var yearEnd := YearEndFor(p.date, s.month, s.day);
        ghost var before := flagged;
        for k := 0 to |p.postings|
          invariant flagged == before + FlagsOfLines(p.id, p.postings[..k], yearEnd, s)
        {
          assert p.postings[..k + 1][..k] == p.postings[..k];
          var more := ScanPosting(p.id, p.postings[k], yearEnd, s);
          flagged := flagged + more;
        }
        assert p.postings[..|p.postings|] == p.postings;
      }
    }
    assert ps[..|ps|] == ps;
  }

  // ----- What a flag says ----------------------------------------------------------------------

  /** Line `l` of document `id` earns the flag. */
  predicate Earns(f: Flag, id: string, l: Posting, yearEnd: Date, s: Settings) {
    IsPrepayment(l, yearEnd, s) && f == FlagOf(id, l, yearEnd)
  }

  /** Line `k` of the purchase earns the flag, judged against the first year-end on or after its date. */
  predicate EarnedBy(f: Flag, p: Purchase, k: nat, s: Settings) {
    k < |p.postings| && !p.isCredit && Earns(f, p.id, p.postings[k], YearEndFor(p.date, s.month, s.day), s)
  }

  lemma FlagOfLastLine(id: string, ls: seq<Posting>, yearEnd: Date, s: Settings, f: Flag)
    requires ls != []
    ensures f in FlagsOfLines(id, ls, yearEnd, s) <==>
      f in FlagsOfLines(id, ls[..|ls| - 1], yearEnd, s) || Earns(f, id, ls[|ls| - 1], yearEnd, s)
  {
    hide IsPrepayment, FlagOf;
  }

  ghost predicate EarnedAmong(f: Flag, id: string, ls: seq<Posting>, yearEnd: Date, s: Settings) {
    exists k :: 0 <= k < |ls| && Earns(f, id, ls[k], yearEnd, s)
  }

  lemma EarnedByLast(f: Flag, id: string, ls: seq<Posting>, yearEnd: Date, s: Settings)
    requires ls != []
    ensures EarnedAmong(f, id, ls, yearEnd, s) <==>
      EarnedAmong(f, id, ls[..|ls| - 1], yearEnd, s) || Earns(f, id, ls[|ls| - 1], yearEnd, s)
  {
    hide Earns;
    var init := ls[..|ls| - 1];
    assert forall k :: 0 <= k < |init| ==> init[k] == ls[k];
  }

  lemma {:induction false} LineOfFlag(id: string, ls: seq<Posting>, yearEnd: Date, s: Settings, f: Flag)
    ensures f in FlagsOfLines(id, ls, yearEnd, s) <==> EarnedAmong(f, id, ls, yearEnd, s)
  {
    if ls != [] {
      LineOfFlag(id, ls[..|ls| - 1], yearEnd, s, f);
      FlagOfLastLine(id, ls, yearEnd, s, f);
      EarnedByLast(f, id, ls, yearEnd, s);
      hide Earns, EarnedAmong, FlagsOfLines;
    }
  }

  ghost predicate EarnedOn(f: Flag, p: Purchase, s: Settings) {
    exists k: nat :: EarnedBy(f, p, k, s)
  }

  lemma FlagOfPurchase(p: Purchase, s: Settings, f: Flag)
    ensures f in FlagsOf(p, s) <==> EarnedOn(f, p, s)
  {
    hide Earns, YearEndFor, FlagsOfLines;
    var yearEnd := YearEndFor(p.date, s.month, s.day);
    LineOfFlag(p.id, p.postings, yearEnd, s, f);
    if k :| 0 <= k < |p.postings| && Earns(f, p.id, p.postings[k], yearEnd, s) {
      assert !p.isCredit ==> EarnedBy(f, p, k, s);
    }
  }

  ghost predicate EarnedIn(f: Flag, ps: seq<Purchase>, s: Settings) {
    exists n, k: nat :: 0 <= n < |ps| && EarnedBy(f, ps[n], k, s)
  }

  lemma EarnedInLast(f: Flag, ps: seq<Purchase>, s: Settings)
    requires ps != []
    ensures EarnedIn(f, ps, s) <==>
      EarnedIn(f, ps[..|ps| - 1], s) || EarnedOn(f, ps[|ps| - 1], s)
  {
    hide EarnedBy;
    var init := ps[..|ps| - 1];
    assert forall n :: 0 <= n < |init| ==> init[n] == ps[n];
  }

  /** The flags are exactly those of the lines that earn one. */
  lemma {:induction false} SourceOfFlag(ps: seq<Purchase>, s: Settings, f: Flag)
    ensures f in AllPrepayments(ps, s) <==> EarnedIn(f, ps, s)
  {
    hide FlagsOf, EarnedBy;
    if ps == [] {
      assert !EarnedIn(f, ps, s);
    } else {
      SourceOfFlag(ps[..|ps| - 1], s, f);
      FlagOfPurchase(ps[|ps| - 1], s, f);
      EarnedInLast(f, ps, s);
      hide EarnedIn;
    }
  }

  /** Every flag within the horizon of its period's start splits a real expense without loss. Its release ends
      with nothing remaining, and its instalments add up to the prepaid share but for half a penny each and
      half a penny more. */
  lemma FlaggedSharesAreSound(ps: seq<Purchase>, s: Settings, f: Flag)
    requires f in AllPrepayments(ps, s) && f.split.monthsAfter <= Horizon(Lateness(f.period.start, f.yearEnd))
    ensures 1 <= f.split.monthsAfter <= f.split.totalMonths
    ensures f.split.prepaid >= 0 && f.split.thisYear >= 0 && f.split.prepaid + f.split.thisYear > s.minAmount
    ensures ReleasesShare(f.split, f.releases)
  {
    SourceOfFlag(ps, s, f);
    var n, k: nat :| 0 <= n < |ps| && EarnedBy(f, ps[n], k, s);
    hide AllPrepayments, YearEndFor, IsPrepayment, ReleasesShare, SplitExpense, ReleaseTable;
    FlagIsSound(ps[n].id, ps[n].postings[k], f.yearEnd, s);
  }

  lemma FlagIsSound(id: string, l: Posting, yearEnd: Date, s: Settings)
    requires IsPrepayment(l, yearEnd, s)
    requires MonthsAfter(yearEnd, l.period.value.end) <= Horizon(Lateness(l.period.value.start, yearEnd))
    ensures var f := FlagOf(id, l, yearEnd);
      && 1 <= f.split.monthsAfter <= f.split.totalMonths
      && f.split.prepaid >= 0 && f.split.thisYear >= 0 && f.split.prepaid + f.split.thisYear > s.minAmount
      && ReleasesShare(f.split, f.releases)
  {
    hide HalfEven, MonthsAfter, TotalMonths, ReleaseTable, ReleasesShare, Before, OnOrBefore;
    var p, amount := l.period.value, Abs(l.amount.value);
    SplitConserves(amount, yearEnd, p.start, p.end);
    MonthsAfterWithinTerm(p.start, yearEnd, p.end);
    TableReleasesShare(amount, yearEnd, p.start, p.end);
  }

  // ----- Flags, told from the ledger --------------------------------------------------------------

  /** An expense line above the threshold, either way, whose period reaches at least one month past the year-end. */
  predicate Overhangs(l: Posting, yearEnd: Date, s: Settings) {
    && l.account != "" && l.account in s.expense
    && l.amount.Some? && (l.amount.value > s.minAmount || -l.amount.value > s.minAmount)
    && l.period.Some? && DayNumber(l.period.value.end) > DayNumber(yearEnd)
    && MonthsAfter(yearEnd, l.period.value.end) >= 1
  }

  lemma OverhangsIff(l: Posting, yearEnd: Date, s: Settings)
    ensures IsPrepayment(l, yearEnd, s) <==> Overhangs(l, yearEnd, s)
  {
    if l.period.Some? {
      DayNumberOrder(yearEnd, l.period.value.end);
    }
    hide DayNumber, MonthsAfter, Before;
  }

  /** The nearest penny to a quotient, the even one of two. */
  predicate NearestPenny(n: int, d: int, r: int) {
    -d <= 2 * (n - d * r) <= d && (2 * (n - d * r) == d || 2 * (n - d * r) == -d ==> r % 2 == 0)
  }

  /** The figures of a line: how many months fall after the year-end and how many the period counts, what share of
      the amount, taken as positive, is prepaid and what is this year's, and the instalments. */
  ghost predicate Splits(f: Flag, id: string, l: Posting, yearEnd: Date) {
    && l.amount.Some? && l.period.Some? && f.docId == id && f.line == l.line && f.yearEnd == yearEnd
    && f.period == l.period.value && f.split.monthsAfter == MonthsAfter(yearEnd, f.period.end)
    && TermIs(f.period.start, f.period.end, f.split.totalMonths)
    && NearestPenny(f.split.monthsAfter * Abs(l.amount.value), f.split.totalMonths, f.split.prepaid)
    && NearestPenny(Abs(l.amount.value), f.split.totalMonths, f.split.monthly)
    && f.split.prepaid + f.split.thisYear == Abs(l.amount.value)
    && f.releases == ReleaseTable(yearEnd, f.split.monthsAfter, f.split.monthly, f.split.prepaid)
  }

  lemma FlagSplits(id: string, l: Posting, yearEnd: Date, f: Flag)
    requires l.amount.Some? && l.period.Some?
    ensures f == FlagOf(id, l, yearEnd) <==> Splits(f, id, l, yearEnd)
  {
    var p, amount := l.period.value, Abs(l.amount.value);
    var after, total := MonthsAfter(yearEnd, p.end), TotalMonths(p.start, p.end);
    TotalMonthsIs(p.start, p.end, f.split.totalMonths);
    HalfEvenIs(after * amount, total, f.split.prepaid);
    HalfEvenIs(amount, total, f.split.monthly);
    hide MonthsAfter, TotalMonths, HalfEven, ReleaseTable, TermIs;
  }

  /** The flag of line `k`, judged at the first year-end on or after the date of the purchase. */
  ghost predicate FlagFor(f: Flag, p: Purchase, k: nat, s: Settings) {
    && !p.isCredit && k < |p.postings|
    && IsNextYearEnd(f.yearEnd, p.date, s.month, s.day)
    && Overhangs(p.postings[k], f.yearEnd, s) && Splits(f, p.id, p.postings[k], f.yearEnd)
  }

  lemma EarnedIff(f: Flag, p: Purchase, k: nat, s: Settings)
    ensures EarnedBy(f, p, k, s) <==> FlagFor(f, p, k, s)
  {
    NextYearEndIs(f.yearEnd, p.date, s.month, s.day);
    hide YearEndFor, IsNextYearEnd, IsPrepayment, FlagOf, Overhangs, Splits;
    if k < |p.postings| {
      var l := p.postings[k];
      OverhangsIff(l, f.yearEnd, s);
      LineHasFigures(l, f.yearEnd, s);
      if l.amount.Some? && l.period.Some? {
        FlagSplits(p.id, l, f.yearEnd, f);
        OwnYearEnd(p.id, l, YearEndFor(p.date, s.month, s.day), f);
      }
    }
  }

  lemma LineHasFigures(l: Posting, yearEnd: Date, s: Settings)
    ensures IsPrepayment(l, yearEnd, s) ==> l.amount.Some? && l.period.Some?
  {}

  lemma OwnYearEnd(id: string, l: Posting, yearEnd: Date, f: Flag)
    requires l.amount.Some? && l.period.Some?
    ensures f == FlagOf(id, l, yearEnd) ==> f.yearEnd == yearEnd
  {
    hide SplitExpense, ReleaseTable, MonthsAfter;
  }

  /** The flags of the review are exactly those that describe a line of a bill, no credit note, that overhangs the
      first year-end on or after its date. */
  lemma FlagIff(ps: seq<Purchase>, s: Settings, f: Flag)
    ensures f in AllPrepayments(ps, s) <==>
      exists n, k: nat :: 0 <= n < |ps| && FlagFor(f, ps[n], k, s)
  {
    SourceOfFlag(ps, s, f);
    hide AllPrepayments, EarnedBy, FlagFor;
    forall n, k: nat | 0 <= n < |ps|
      ensures EarnedBy(f, ps[n], k, s) <==> FlagFor(f, ps[n], k, s)
    {
      EarnedIff(f, ps[n], k, s);
    }
  }

  // ----- Periods implied by a keyword ----------------------------------------------------------

  /** A keyword such as "annual" stands for twelve months from the document's date. */
  function KeywordPeriod(date: Date): Period {
    Period(date, AddMonths(date, 12))
  }

  /** A year's cover counts as exactly twelve months, and at most those are carried over. It runs past
      the year-end always, save for cover bought on 29 February under a 28 February year-end. */
  lemma KeywordCover(date: Date, month: Month, day: Day)
    ensures var p, ye := KeywordPeriod(date), YearEndFor(date, month, day);
      && TotalMonths(p.start, p.end) == 12
      && OnOrBefore(p.start, ye) && MonthsAfter(ye, p.end) <= 12
      && (Before(ye, p.end) <==> !(date.m == 2 && date.d == 29 && month == 2 && day == 28))
  {
    YearLength(date);
    TwelveMonths(date, AddMonths(date, 12));
    YearEndForIsNext(date, month, day);
    KeywordEnd(date, month, day);
    hide YearEndFor, TotalMonths, AddMonths, MonthsAfter;
  }

  lemma YearLater(date: Date)
    ensures AddMonths(date, 12) == RawDate(date.y + 1, date.m, Min(date.d, MonthLength(date.y + 1, date.m)))
  {
    QuotientIs(MonthIndex(date) + 12, 12, date.y + 1, date.m - 1);
  }

  lemma KeywordEnd(date: Date, month: Month, day: Day)
    ensures var end, ye := AddMonths(date, 12), YearEndFor(date, month, day);
      && MonthsAfter(ye, end) <= 12
      && (Before(ye, end) <==> !(date.m == 2 && date.d == 29 && month == 2 && day == 28))
  {
    YearLater(date);
    hide AddMonths;
  }

  lemma YearLength(date: Date)
    ensures 365 <= DayNumber(AddMonths(date, 12)) - DayNumber(date) <= 366
  {
    YearLater(date);
    IndexOfDate(date);
    IndexOfDate(AddMonths(date, 12));
    DaysOfYear(date.y, date.m);
    ClampedDays(date.y, date.m, date.d);
    hide AddMonths, DaysBefore, MonthLength;
  }

  lemma DaysOfYear(y: int, m: int)
    requires 1 <= m <= 12
    ensures DaysBefore(y + 1, m) - DaysBefore(y, m) == 365 + if IsLeap(LeapYearsTo(y + 1, m)) then 1 else 0
  {
    LeapDayOfYear(LeapYearsTo(y + 1, m));
    hide LeapDays;
  }

  /** A day lost to clamping is the 29 February just passed. */
  lemma ClampedDays(y: int, m: int, d: int)
    requires 1 <= m <= 12 && 1 <= d <= MonthLength(y, m)
    ensures d > MonthLength(y + 1, m) ==> IsLeap(LeapYearsTo(y + 1, m)) && d == MonthLength(y + 1, m) + 1
  {}

  lemma TwelveMonths(start: Date, end: Date)
    ensures 365 <= DayNumber(end) - DayNumber(start) <= 366 ==> TotalMonths(start, end) == 12
  {}
}
