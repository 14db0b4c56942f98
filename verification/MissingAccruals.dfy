/** Missing accruals (`find_missing_accruals`): months without cost on accounts that normally post every
    month. Money is in whole pence. */
module MissingAccruals {
  import opened Wrappers
  import opened Rounding
  import opened Calendar
  import opened Documents
  import opened TextOrder

  /** A transaction as this check reads it. */
  datatype Entry = Entry(date: Date, lines: seq<Line>)

  /** `expense`: the codes of pure expense accounts; `predefined`: those of them whose name marks a
      regular cost. */
  datatype Chart = Chart(expense: set<string>, predefined: set<string>)

  // ----- Activity ------------------------------------------------------------------------------

  /** A debit to an expense account: reversing credits and balance-sheet lines are no activity. */
  predicate Counts(l: Line, expense: set<string>) {
    l.accountCode != "" && l.accountCode in expense && l.amount.Some? && l.amount.value > 0
  }

  function SpentOnLines(lines: seq<Line>, expense: set<string>, code: string): (n: int)
    ensures n >= 0
  {
    if lines == [] then 0
    else
      var l := lines[|lines| - 1];
      SpentOnLines(lines[..|lines| - 1], expense, code)
      + if Counts(l, expense) && l.accountCode == code then l.amount.value else 0
  }

  /** Everything debited to an account in one calendar month (a month index). */
  function Spent(entries: seq<Entry>, expense: set<string>, code: string, month: int): (n: int)
    ensures n >= 0
  {
    if entries == [] then 0
    else
      var e := entries[|entries| - 1];
      Spent(entries[..|entries| - 1], expense, code, month)
      + if MonthIndex(e.date) == month then SpentOnLines(e.lines, expense, code) else 0
  }

  /** The month index of grid column `i`. */
  function ColumnMonth(yearEnd: Date, months: int, i: int): int {
    MonthIndex(yearEnd) - months + 1 + i
  }

  /** `idx`: which column, if any, a date belongs to. */
  function ColumnOf(yearEnd: Date, months: int, t: Date): Option<int> {
    var i := MonthIndex(t) - ColumnMonth(yearEnd, months, 0);
    if 0 <= i < months then Some(i) else None
  }

  /** The column lookup is the lookup in the financial year's month ends. */
  lemma ColumnIsFyMonth(yearEnd: Date, months: nat, t: Date, i: nat)
    requires i < months
    ensures ColumnOf(yearEnd, months, t) == Some(i) <==> EndOfMonth(t) == FyMonthEnds(yearEnd, months)[i]
  {
    FyMonthEndsConsecutive(yearEnd, months);
    MonthEndByIndex(EndOfMonth(t), FyMonthEnds(yearEnd, months)[i]);
  }

  lemma SpentSnoc(pre: seq<Entry>, e: Entry, expense: set<string>, code: string, month: int)
    ensures Spent(pre + [e], expense, code, month) == Spent(pre, expense, code, month)
      + if MonthIndex(e.date) == month then SpentOnLines(e.lines, expense, code) else 0
  {
    assert (pre + [e])[..|pre|] == pre;
  }

  /** Reading one more line of the current entry. */
  lemma SpentOneMoreLine(pre: seq<Entry>, e: Entry, m: nat, expense: set<string>, code: string, month: int)
    requires m < |e.lines|
    ensures Spent(pre + [Entry(e.date, e.lines[..m + 1])], expense, code, month)
      == Spent(pre + [Entry(e.date, e.lines[..m])], expense, code, month)
      + if MonthIndex(e.date) == month && Counts(e.lines[m], expense) && e.lines[m].accountCode == code
        then e.lines[m].amount.value else 0
  {
    SpentSnoc(pre, Entry(e.date, e.lines[..m + 1]), expense, code, month);
    SpentSnoc(pre, Entry(e.date, e.lines[..m]), expense, code, month);
    assert e.lines[..m + 1][..m] == e.lines[..m];
  }

  lemma ColumnAfterYear(yearEnd: Date, months: int, t: Date)
    ensures MonthIndex(t) == MonthIndex(yearEnd) + 1 ==> ColumnOf(yearEnd, months, t).None?
    ensures ColumnOf(yearEnd, months, t).Some? ==> 0 <= ColumnOf(yearEnd, months, t).value < months
  {}

  /** The dictionaries the scan fills. */
  class Activity {
    const months: int
    const yearEnd: Date
    const expense: set<string>
    var present: map<string, seq<bool>>
    var totals: map<string, seq<int>>
    var postYear: set<string>

    ghost predicate Valid()
      reads this`present, this`totals
    {
      && months >= 1
      && present.Keys == totals.Keys <= expense
      && forall c :: c in present ==> |present[c]| == months && |totals[c]| == months && true in present[c]
    }

    constructor (months: int, yearEnd: Date, expense: set<string>)
      requires months >= 1
      ensures Valid() && Reflects([])
      ensures this.months == months && this.yearEnd == yearEnd && this.expense == expense
    {
      this.months, this.yearEnd, this.expense := months, yearEnd, expense;
      present, totals, postYear := map[], map[], {};
    }

    function Seen(code: string): (s: seq<bool>)
      requires Valid()
      reads this`present, this`totals
      ensures |s| == months
    {
      if code in present then present[code] else seq(months, _ => false)
    }

    function Totals(code: string): (s: seq<int>)
      requires Valid()
      reads this`present, this`totals
      ensures |s| == months
    {
      if code in totals then totals[code] else seq(months, _ => 0)
    }

    /** The dictionaries say exactly what was spent: per column, whether anything was and how much; and
        whether anything was in the month after the year-end. */
    ghost predicate Reflects(entries: seq<Entry>)
      requires Valid()
      reads this
    {
      && (forall c, i :: 0 <= i < months ==>
            && Totals(c)[i] == Spent(entries, expense, c, ColumnMonth(yearEnd, months, i))
            && (Seen(c)[i] <==> Totals(c)[i] > 0))
      && (forall c :: c in postYear <==> Spent(entries, expense, c, MonthIndex(yearEnd) + 1) > 0)
    }

    /** One line: `present[code][i] = True; totals[code][i] += amt`, or the post-year mark. */
    method Record(l: Line, t: Date)
      requires Valid() && Counts(l, expense)
      modifies this
      ensures Valid()
      ensures forall c, i :: 0 <= i < months ==>
        && Totals(c)[i] == old(Totals(c))[i]
          + (if c == l.accountCode && ColumnOf(yearEnd, months, t) == Some(i) then l.amount.value else 0)
        && (Seen(c)[i] <==> old(Seen(c))[i] || (c == l.accountCode && ColumnOf(yearEnd, months, t) == Some(i)))
      ensures postYear == old(postYear) + if MonthIndex(t) == MonthIndex(yearEnd) + 1 then {l.accountCode} else {}
    {
      hide ColumnOf, MonthIndex;
      var code, column := l.accountCode, ColumnOf(yearEnd, months, t);
      ColumnAfterYear(yearEnd, months, t);
      if column.Some? {
        Bump(code, column.value, l.amount.value);
      } else if MonthIndex(t) == MonthIndex(yearEnd) + 1 {
        postYear := postYear + {code};
      }
    }

    /** `present[code][i] = True; totals[code][i] += amt`, the account's rows being created when missing. */
    method Bump(code: string, i: int, amount: int)
      requires Valid() && code in expense && 0 <= i < months
      modifies this`present, this`totals
      ensures Valid()
      ensures forall c, k :: 0 <= k < months ==>
        && Totals(c)[k] == old(Totals(c))[k] + (if c == code && k == i then amount else 0)
        && (Seen(c)[k] <==> old(Seen(c))[k] || (c == code && k == i))
    {
      var seen, total := Seen(code)[i := true], Totals(code)[i := Totals(code)[i] + amount];
      assert seen[i];
      present, totals := present[code := seen], totals[code := total];
    }

    /** The scan over all transactions and their lines. */
    method Scan(entries: seq<Entry>)
      requires Valid() && Reflects([])
      modifies this
      ensures Valid() && Reflects(entries)
    {
      assert entries[..0] == [];
      for n := 0 to |entries|
        invariant Valid() && Reflects(entries[..n])
      {
        ScanLines(entries[..n], entries[n]);
        assert entries[..n + 1] == entries[..n] + [entries[n]];
      }
      assert entries[..|entries|] == entries;
    }

    method ScanLines(ghost pre: seq<Entry>, e: Entry)
      requires Valid() && Reflects(pre)
      modifies this
      ensures Valid() && Reflects(pre + [e])
    {
      ReflectsNothingNew(pre, e.date);
      assert e.lines[..0] == [];
      for m := 0 to |e.lines|
        invariant Valid() && Reflects(pre + [Entry(e.date, e.lines[..m])])
      {
        ScanLine(pre, e, m);
      }
      assert e.lines[..|e.lines|] == e.lines;
      assert Entry(e.date, e.lines) == e;
    }

    method ScanLine(ghost pre: seq<Entry>, e: Entry, m: nat)
      requires m < |e.lines|
      requires Valid() && Reflects(pre + [Entry(e.date, e.lines[..m])])
      modifies this
      ensures Valid() && Reflects(pre + [Entry(e.date, e.lines[..m + 1])])
    {
      hide Spent, Seen, Totals;
      forall c, month
        ensures Spent(pre + [Entry(e.date, e.lines[..m + 1])], expense, c, month)
          == Spent(pre + [Entry(e.date, e.lines[..m])], expense, c, month)
          + if MonthIndex(e.date) == month && Counts(e.lines[m], expense) && e.lines[m].accountCode == c
            then e.lines[m].amount.value else 0
      {
        SpentOneMoreLine(pre, e, m, expense, c, month);
      }
      if Counts(e.lines[m], expense) {
        Record(e.lines[m], e.date);
        ghost var before := pre + [Entry(e.date, e.lines[..m])];
        ghost var after := pre + [Entry(e.date, e.lines[..m + 1])];
        forall c, i | 0 <= i < months
          ensures Totals(c)[i] == Spent(after, expense, c, ColumnMonth(yearEnd, months, i))
          ensures Seen(c)[i] <==> Totals(c)[i] > 0
        {
          var month := ColumnMonth(yearEnd, months, i);
          assert old(Totals(c))[i] == Spent(before, expense, c, month);
          assert ColumnOf(yearEnd, months, e.date) == Some(i) <==> MonthIndex(e.date) == month;
        }
        forall c
          ensures c in postYear <==> Spent(after, expense, c, MonthIndex(yearEnd) + 1) > 0
        {}
      }
    }

    lemma ReflectsNothingNew(pre: seq<Entry>, t: Date)
      requires Valid() && Reflects(pre)
      ensures Reflects(pre + [Entry(t, [])])
    {
      forall c, month
        ensures Spent(pre + [Entry(t, [])], expense, c, month) == Spent(pre, expense, c, month)
      {
        SpentSnoc(pre, Entry(t, []), expense, c, month);
      }
      hide Spent, Seen, Totals;
    }
  }

  // ----- Gap runs ------------------------------------------------------------------------------

  datatype Run = Run(first: int, end: int)

  /** The inner loop: the first month from `i` on that has cost, or `n`. */
  function GapEnd(seen: seq<bool>, n: int, i: int): (j: int)
    requires 0 <= i <= n <= |seen|
    ensures i <= j <= n
    ensures forall k :: i <= k < j ==> !seen[k]
    ensures j < n ==> seen[j]
    decreases n - i
  {
    if i < n && !seen[i] then GapEnd(seen, n, i + 1) else i
  }

  function RunsFrom(seen: seq<bool>, n: int, i: int): seq<Run>
    requires 0 <= i <= n <= |seen|
    decreases n - i
  {
    if i == n then []
    else if seen[i] then RunsFrom(seen, n, i + 1)
    else [Run(i, GapEnd(seen, n, i))] + RunsFrom(seen, n, GapEnd(seen, n, i))
  }

  /** A longest stretch of missing months among the first `n`. */
  predicate MaximalRun(seen: seq<bool>, n: int, r: Run)
    requires 0 <= n <= |seen|
  {
    && 0 <= r.first < r.end <= n
    && (forall k :: r.first <= k < r.end ==> !seen[k])
    && (r.first > 0 ==> seen[r.first - 1])
    && (r.end < n ==> seen[r.end])
  }

  predicate Covers(r: Run, k: int) {
    r.first <= k < r.end
  }

  ghost predicate Covered(runs: seq<Run>, k: int) {
    exists a :: 0 <= a < |runs| && Covers(runs[a], k)
  }

  /** Later runs start beyond the end of earlier ones. */
  predicate Separated(runs: seq<Run>) {
    forall a, b :: 0 <= a < b < |runs| ==> runs[a].end < runs[b].first
  }

  predicate AllMaximal(seen: seq<bool>, n: int, runs: seq<Run>)
    requires 0 <= n <= |seen|
  {
    forall a :: 0 <= a < |runs| ==> MaximalRun(seen, n, runs[a])
  }

  lemma {:induction false} RunsAreMaximal(seen: seq<bool>, n: int, i: int)
    requires 0 <= i <= n <= |seen| && (i == 0 || i == n || seen[i - 1] || seen[i])
    ensures AllMaximal(seen, n, RunsFrom(seen, n, i))
    decreases n - i
  {
    hide MaximalRun, AllMaximal;
    if i == n || seen[i] {
      NoneMaximal(seen, n);
      if i < n {
        RunsAreMaximal(seen, n, i + 1);
      }
    } else {
      var j := GapEnd(seen, n, i);
      RunsAreMaximal(seen, n, j);
      GapIsMaximal(seen, n, i);
      PrependMaximal(seen, n, Run(i, j), RunsFrom(seen, n, j));
    }
  }

  lemma NoneMaximal(seen: seq<bool>, n: int)
    requires 0 <= n <= |seen|
    ensures AllMaximal(seen, n, [])
  {}

  lemma GapIsMaximal(seen: seq<bool>, n: int, i: int)
    requires 0 <= i < n <= |seen| && !seen[i] && (i == 0 || seen[i - 1])
    ensures MaximalRun(seen, n, Run(i, GapEnd(seen, n, i)))
  {}

  lemma PrependMaximal(seen: seq<bool>, n: int, r: Run, rest: seq<Run>)
    requires 0 <= n <= |seen| && MaximalRun(seen, n, r) && AllMaximal(seen, n, rest)
    ensures AllMaximal(seen, n, [r] + rest)
  {
    hide MaximalRun;
  }

  lemma {:induction false} RunsAreSeparated(seen: seq<bool>, n: int, i: int)
    requires 0 <= i <= n <= |seen| && (i == 0 || i == n || seen[i - 1] || seen[i])
    ensures Separated(RunsFrom(seen, n, i))
    decreases n - i
  {
    if i < n {
      if seen[i] {
        RunsAreSeparated(seen, n, i + 1);
      } else {
        var j := GapEnd(seen, n, i);
        RunsAreSeparated(seen, n, j);
        LaterRunsStartBeyond(seen, n, j);
        hide Separated;
        PrependSeparated(Run(i, j), RunsFrom(seen, n, j));
      }
    }
  }

  lemma LaterRunsStartBeyond(seen: seq<bool>, n: int, j: int)
    requires 0 <= j <= n <= |seen| && (j == n || seen[j])
    ensures forall b :: 0 <= b < |RunsFrom(seen, n, j)| ==> j < RunsFrom(seen, n, j)[b].first
  {
    if j < n {
      RunsStartFrom(seen, n, j + 1);
    }
  }

  lemma {:induction false} RunsStartFrom(seen: seq<bool>, n: int, i: int)
    requires 0 <= i <= n <= |seen|
    ensures forall b :: 0 <= b < |RunsFrom(seen, n, i)| ==> i <= RunsFrom(seen, n, i)[b].first
    decreases n - i
  {
    if i < n {
      RunsStartFrom(seen, n, if seen[i] then i + 1 else GapEnd(seen, n, i));
    }
  }

  lemma PrependSeparated(r: Run, rest: seq<Run>)
    requires Separated(rest) && forall b :: 0 <= b < |rest| ==> r.end < rest[b].first
    ensures Separated([r] + rest)
  {}

  lemma {:induction false} RunsCoverMissing(seen: seq<bool>, n: int, i: int, k: int)
    requires 0 <= i <= k < n <= |seen| && !seen[k]
    ensures Covered(RunsFrom(seen, n, i), k)
    decreases n - i
  {
    var runs := RunsFrom(seen, n, i);
    if seen[i] {
      RunsCoverMissing(seen, n, i + 1, k);
    } else if k < GapEnd(seen, n, i) {
      assert Covers(runs[0], k);
    } else {
      var rest := RunsFrom(seen, n, GapEnd(seen, n, i));
      RunsCoverMissing(seen, n, GapEnd(seen, n, i), k);
      var a :| 0 <= a < |rest| && Covers(rest[a], k);
      assert Covers(runs[a + 1], k);
    }
  }

  /** Every missing month lies in exactly one run and no month with cost lies in any. */
  lemma EachMissingMonthOnce(seen: seq<bool>, n: int, k: int)
    requires 0 <= k < n <= |seen|
    ensures var runs := RunsFrom(seen, n, 0);
      && (!seen[k] <==> Covered(runs, k))
      && (forall a, b :: 0 <= a < |runs| && 0 <= b < |runs| && Covers(runs[a], k) && Covers(runs[b], k) ==> a == b)
  {
    RunsAreMaximal(seen, n, 0);
    RunsAreSeparated(seen, n, 0);
    if !seen[k] {
      RunsCoverMissing(seen, n, 0, k);
    }
  }

  /** The runs are all the maximal runs. */
  lemma AllMaximalRuns(seen: seq<bool>, n: int, r: Run)
    requires 0 <= n <= |seen| && MaximalRun(seen, n, r)
    ensures r in RunsFrom(seen, n, 0)
  {
    RunsAreMaximal(seen, n, 0);
    RunsCoverMissing(seen, n, 0, r.first);
    var runs := RunsFrom(seen, n, 0);
    var a :| 0 <= a < |runs| && Covers(runs[a], r.first);
    MaximalRunsAgree(seen, n, runs[a], r);
  }

  lemma MaximalRunsAgree(seen: seq<bool>, n: int, q: Run, r: Run)
    requires 0 <= n <= |seen| && MaximalRun(seen, n, q) && MaximalRun(seen, n, r) && Covers(q, r.first)
    ensures q == r
  {}

  // ----- Findings ------------------------------------------------------------------------------

  datatype Reason = MissingMonth | LargeGap | FinalMonthMissing | PostYearCutoff

  /** Months `first..end` (columns) of an account have no cost. */
  datatype Finding = Finding(code: string, first: int, end: int, reason: Reason, monthsPresent: int, average: int)

  function CountSeen(seen: seq<bool>): (n: int)
    ensures 0 <= n <= |seen|
  {
    if seen == [] then 0 else CountSeen(seen[..|seen| - 1]) + if seen[|seen| - 1] then 1 else 0
  }

  function SumSeen(seen: seq<bool>, totals: seq<int>): int
    requires |seen| == |totals|
  {
    if seen == [] then 0
    else SumSeen(seen[..|seen| - 1], totals[..|seen| - 1]) + if seen[|seen| - 1] then totals[|seen| - 1] else 0
  }

  /** The average of the months that have cost, to the penny. */
  function Average(seen: seq<bool>, totals: seq<int>): int
    requires |seen| == |totals|
  {
    if CountSeen(seen) == 0 then 0 else HalfEven(SumSeen(seen, totals), CountSeen(seen))
  }

  function GapFinding(code: string, r: Run, present: int, average: int): Finding {
    Finding(code, r.first, r.end, if r.end - r.first >= 2 then LargeGap else MissingMonth, present, average)
  }

  function GapFindings(code: string, runs: seq<Run>, present: int, average: int): (f: seq<Finding>)
    ensures |f| == |runs|
  {
    seq(|runs|, i requires 0 <= i < |runs| => GapFinding(code, runs[i], present, average))
  }

  /** The findings of one account: interim gaps when it is mostly present, then its final month. */
  function AccountFindings(code: string, seen: seq<bool>, totals: seq<int>, postYear: bool, minPresent: int)
    : seq<Finding>
    requires |seen| == |totals| && |seen| >= 1
  {
    var n, present, average := |seen|, CountSeen(seen), Average(seen, totals);
    (if present >= minPresent then GapFindings(code, RunsFrom(seen, n - 1, 0), present, average) else [])
    + if seen[n - 1] then []
      else [Finding(code, n - 1, n, if postYear then PostYearCutoff else FinalMonthMissing, present, average)]
  }

  /** The inner loop: step over the months without cost. */
  method SkipGap(seen: seq<bool>, n: int, i: int) returns (j: int)
    requires 0 <= i <= n <= |seen|
    ensures j == GapEnd(seen, n, i)
  {
    j := i;
    while j < n && !seen[j]
      invariant i <= j <= n
      invariant GapEnd(seen, n, j) == GapEnd(seen, n, i)
    {
      j := j + 1;
    }
  }

  lemma OneMoreRun(code: string, seen: seq<bool>, n: int, i: int, present: int, average: int)
    requires 0 <= i < n <= |seen| && !seen[i]
    ensures i < GapEnd(seen, n, i)
    ensures GapFindings(code, RunsFrom(seen, n, i), present, average) ==
      [GapFinding(code, Run(i, GapEnd(seen, n, i)), present, average)]
      + GapFindings(code, RunsFrom(seen, n, GapEnd(seen, n, i)), present, average)
  {
    hide GapFinding;
  }

  /** The outer loop over the interim months, run by run. */
  method ScanGaps(code: string, seen: seq<bool>, n: int, present: int, average: int) returns (findings: seq<Finding>)
    requires 0 <= n <= |seen|
    ensures findings == GapFindings(code, RunsFrom(seen, n, 0), present, average)
  {
    hide GapFindings, GapFinding, GapEnd;
    findings := [];
    var i := 0;
    while i < n
      invariant 0 <= i <= n
      invariant findings + GapFindings(code, RunsFrom(seen, n, i), present, average)
        == GapFindings(code, RunsFrom(seen, n, 0), present, average)
    {
      if seen[i] {
        i := i + 1;
      } else {
        OneMoreRun(code, seen, n, i, present, average);
        var j := SkipGap(seen, n, i);
        findings := findings + [GapFinding(code, Run(i, j), present, average)];
        i := j;
      }
    }
    assert GapFindings(code, RunsFrom(seen, n, n), present, average) == [] by {
      NoMoreRuns(code, seen, n, present, average);
    }
  }

  lemma NoMoreRuns(code: string, seen: seq<bool>, n: int, present: int, average: int)
    requires 0 <= n <= |seen|
    ensures GapFindings(code, RunsFrom(seen, n, n), present, average) == []
  {}

  /** What the source does for one account: interim gaps when it is mostly present, then the final month. */
  method JudgeAccount(code: string, seen: seq<bool>, totals: seq<int>, postYear: bool, minPresent: int)
    returns (findings: seq<Finding>)
    requires |seen| == |totals| && |seen| >= 1
    ensures findings == AccountFindings(code, seen, totals, postYear, minPresent)
  {
    hide CountSeen, Average, RunsFrom, GapFindings;
    findings := [];
    var months := |seen|;
    var present, average := CountSeen(seen), Average(seen, totals);
    if present >= minPresent {
      findings := ScanGaps(code, seen, months - 1, present, average);
    }
    if !seen[months - 1] {
      var reason := if postYear then PostYearCutoff else FinalMonthMissing;
      findings := findings + [Finding(code, months - 1, months, reason, present, average)];
    }
  }

  predicate Includes(f: Finding, k: int) {
    f.first <= k < f.end
  }

  ghost predicate Reported(fs: seq<Finding>, k: int) {
    exists a :: 0 <= a < |fs| && Includes(fs[a], k)
  }

  /** The interim gaps looked at: those of a mostly-present account. */
  function InterimRuns(seen: seq<bool>, minPresent: int): seq<Run>
    requires |seen| >= 1
  {
    if CountSeen(seen) >= minPresent then RunsFrom(seen, |seen| - 1, 0) else []
  }

  lemma InterimRunsFit(seen: seq<bool>, minPresent: int)
    requires |seen| >= 1
    ensures AllMaximal(seen, |seen| - 1, InterimRuns(seen, minPresent)) && Separated(InterimRuns(seen, minPresent))
  {
    RunsAreMaximal(seen, |seen| - 1, 0);
    RunsAreSeparated(seen, |seen| - 1, 0);
    NoneMaximal(seen, |seen| - 1);
    assert Separated([]);
    hide RunsFrom, CountSeen, MaximalRun, AllMaximal, Separated;
  }

  /** The findings of an account are its interim gaps, in order, then its final month. */
  lemma FindingsShape(code: string, seen: seq<bool>, totals: seq<int>, postYear: bool, minPresent: int)
    requires |seen| == |totals| && |seen| >= 1
    ensures var fs, runs := AccountFindings(code, seen, totals, postYear, minPresent), InterimRuns(seen, minPresent);
      && |fs| == |runs| + (if seen[|seen| - 1] then 0 else 1)
      && (forall a :: 0 <= a < |runs| ==> fs[a] == GapFinding(code, runs[a], CountSeen(seen), Average(seen, totals)))
      && (!seen[|seen| - 1] ==> fs[|runs|] == Finding(code, |seen| - 1, |seen|,
            if postYear then PostYearCutoff else FinalMonthMissing, CountSeen(seen), Average(seen, totals)))
  {
    hide RunsFrom, Average, CountSeen;
  }

  lemma RegularMonths(code: string, seen: seq<bool>, totals: seq<int>, postYear: bool, minPresent: int, k: int)
    requires |seen| == |totals| && 0 <= k < |seen| && CountSeen(seen) >= minPresent
    ensures Reported(AccountFindings(code, seen, totals, postYear, minPresent), k) <==> !seen[k]
  {
    FindingsShape(code, seen, totals, postYear, minPresent);
    RunsAreMaximal(seen, |seen| - 1, 0);
    hide RunsFrom, Average, CountSeen, AccountFindings, Reported, MaximalRun;
    var found := AccountFindings(code, seen, totals, postYear, minPresent);
    MonthReportedIff(seen, |seen| - 1, RunsFrom(seen, |seen| - 1, 0), found, k);
  }

  lemma SparseMonths(code: string, seen: seq<bool>, totals: seq<int>, postYear: bool, minPresent: int, k: int)
    requires |seen| == |totals| && 0 <= k < |seen| && CountSeen(seen) < minPresent
    ensures Reported(AccountFindings(code, seen, totals, postYear, minPresent), k) <==> !seen[k] && k == |seen| - 1
  {
    FindingsShape(code, seen, totals, postYear, minPresent);
    hide RunsFrom, Average, CountSeen, AccountFindings, Reported;
    FinalMonthOnly(seen, AccountFindings(code, seen, totals, postYear, minPresent), k);
  }

  /** A month is in a finding exactly when it is missing and looked at: every month of an account that has
      cost in most of them, only the final month of one that is regular by name alone. */
  lemma MissingMonthsReported(code: string, seen: seq<bool>, totals: seq<int>, postYear: bool, minPresent: int, k: int)
    requires |seen| == |totals| && 0 <= k < |seen|
    ensures Reported(AccountFindings(code, seen, totals, postYear, minPresent), k) <==>
      !seen[k] && (CountSeen(seen) >= minPresent || k == |seen| - 1)
  {
    hide *;
    if CountSeen(seen) >= minPresent {
      RegularMonths(code, seen, totals, postYear, minPresent, k);
    } else {
      SparseMonths(code, seen, totals, postYear, minPresent, k);
    }
  }

  lemma FinalMonthOnly(seen: seq<bool>, fs: seq<Finding>, k: int)
    requires 0 <= k < |seen| && |fs| == if seen[|seen| - 1] then 0 else 1
    requires !seen[|seen| - 1] ==> fs[0].first == |seen| - 1 && fs[0].end == |seen|
    ensures Reported(fs, k) <==> !seen[k] && k == |seen| - 1
  {
    if !seen[k] && k == |seen| - 1 {
      assert Includes(fs[0], k);
    }
  }

  predicate OnePerMonth(fs: seq<Finding>) {
    forall a, b :: 0 <= a < b < |fs| ==> fs[a].end <= fs[b].first
  }

  /** Findings follow each other without overlap, so no month is in two of them. */
  lemma FindingsDisjoint(code: string, seen: seq<bool>, totals: seq<int>, postYear: bool, minPresent: int)
    requires |seen| == |totals| && |seen| >= 1
    ensures OnePerMonth(AccountFindings(code, seen, totals, postYear, minPresent))
  {
    FindingsShape(code, seen, totals, postYear, minPresent);
    InterimRunsFit(seen, minPresent);
    hide InterimRuns, Average, CountSeen, AccountFindings;
    var runs := InterimRuns(seen, minPresent);
    assert forall a :: 0 <= a < |runs| ==> MaximalRun(seen, |seen| - 1, runs[a]);
  }

  /** Interim findings are raised only for mostly-present accounts, lie before the final month and are large
      exactly when they span two months or more; the other kind of finding is the final month alone. */
  lemma FindingKinds(code: string, seen: seq<bool>, totals: seq<int>, postYear: bool, minPresent: int, a: int)
    requires |seen| == |totals| && |seen| >= 1
    requires 0 <= a < |AccountFindings(code, seen, totals, postYear, minPresent)|
    ensures var f := AccountFindings(code, seen, totals, postYear, minPresent)[a];
      && f.code == code && 0 <= f.first < f.end <= |seen|
      && (f.reason == MissingMonth || f.reason == LargeGap ==> CountSeen(seen) >= minPresent)
      && (f.reason == LargeGap <==> f.end - f.first >= 2)
      && (f.reason == MissingMonth <==> f.end - f.first == 1 && f.end < |seen|)
      && (f.reason == PostYearCutoff <==> f.end == |seen| && postYear)
      && (f.reason == FinalMonthMissing <==> f.end == |seen| && !postYear)
  {
    FindingsShape(code, seen, totals, postYear, minPresent);
    InterimRunsFit(seen, minPresent);
    var runs := InterimRuns(seen, minPresent);
    assert runs != [] ==> CountSeen(seen) >= minPresent;
    hide InterimRuns, Average, CountSeen, AccountFindings;
    assert a < |runs| ==> MaximalRun(seen, |seen| - 1, runs[a]);
  }

  lemma MonthReportedIff(seen: seq<bool>, n: int, runs: seq<Run>, fs: seq<Finding>, k: int)
    requires 0 <= k <= n == |seen| - 1 && runs == RunsFrom(seen, n, 0)
    requires |fs| == |runs| + (if seen[n] then 0 else 1)
    requires forall a {:trigger fs[a]} :: 0 <= a < |runs| ==> fs[a].first == runs[a].first && fs[a].end == runs[a].end
    requires !seen[n] ==> fs[|runs|].first == n && fs[|runs|].end == n + 1
    requires AllMaximal(seen, n, runs)
    ensures !seen[k] <==> Reported(fs, k)
  {
    hide RunsFrom;
    if k < n {
      EachMissingMonthOnce(seen, n, k);
      if !seen[k] {
        var a :| 0 <= a < |runs| && Covers(runs[a], k);
        assert Includes(fs[a], k);
      }
    } else if !seen[n] {
      assert Includes(fs[|runs|], n);
    }
    if Reported(fs, k) {
      var a :| 0 <= a < |fs| && Includes(fs[a], k);
      assert a < |runs| ==> Covers(runs[a], k);
    }
  }

  // ----- The whole check -----------------------------------------------------------------------

  function SeenOf(entries: seq<Entry>, chart: Chart, yearEnd: Date, months: nat, code: string): (s: seq<bool>)
    ensures |s| == months
  {
    seq(months, i => Spent(entries, chart.expense, code, ColumnMonth(yearEnd, months, i)) > 0)
  }

  function TotalsOf(entries: seq<Entry>, chart: Chart, yearEnd: Date, months: nat, code: string): (s: seq<int>)
    ensures |s| == months
  {
    seq(months, i => Spent(entries, chart.expense, code, ColumnMonth(yearEnd, months, i)))
  }

  /** An account is regular when its name says so or it posted in enough months. */
  function FindingsFor(entries: seq<Entry>, chart: Chart, yearEnd: Date, months: nat, minPresent: int, code: string)
    : seq<Finding>
    requires months >= 1
  {
    var seen := SeenOf(entries, chart, yearEnd, months, code);
    if CountSeen(seen) >= minPresent || code in chart.predefined then
      AccountFindings(code, seen, TotalsOf(entries, chart, yearEnd, months, code),
                      Spent(entries, chart.expense, code, MonthIndex(yearEnd) + 1) > 0, minPresent)
    else
      []
  }

  function AllFindings(
    entries: seq<Entry>, chart: Chart, yearEnd: Date, months: nat, minPresent: int, order: seq<string>)
    : seq<Finding>
    requires months >= 1
  {
    if order == [] then
      []
    else
      AllFindings(entries, chart, yearEnd, months, minPresent, order[..|order| - 1])
      + FindingsFor(entries, chart, yearEnd, months, minPresent, order[|order| - 1])
  }

  /** The accounts looked at: those predefined as regular and those with cost in some column. */
  ghost predicate Candidate(entries: seq<Entry>, chart: Chart, yearEnd: Date, months: nat, code: string) {
    code in chart.predefined || exists i :: 0 <= i < months && SeenOf(entries, chart, yearEnd, months, code)[i]
  }

  predicate IsLeast(c: string, codes: set<string>) {
    c in codes && forall d :: d in codes && d != c ==> Less(c, d)
  }

  lemma {:induction false} LeastExists(codes: set<string>)
    requires codes != {}
    ensures exists c :: IsLeast(c, codes)
  {
    hide Less;
    var e :| e in codes;
    if codes == {e} {
      assert IsLeast(e, codes);
    } else {
      var rest := codes - {e};
      assert rest != {};
      LeastExists(rest);
      var c :| IsLeast(c, rest);
      LessTotal(c, e);
      if Less(c, e) {
        assert IsLeast(c, codes);
      } else {
        LessThanLeast(e, c, rest);
        assert IsLeast(e, codes);
      }
    }
  }

  lemma LessThanLeast(e: string, c: string, rest: set<string>)
    requires IsLeast(c, rest) && Less(e, c)
    ensures forall d :: d in rest ==> Less(e, d)
  {
    forall d | d in rest && d != c
      ensures Less(e, d)
    {
      LessTransitive(e, c, d);
    }
  }

  /** `sorted(candidates)` */
  method SortCodes(codes: set<string>) returns (order: seq<string>)
    ensures forall c :: c in order <==> c in codes
    ensures forall i, j :: 0 <= i < j < |order| ==> Less(order[i], order[j])
  {
    order := [];
    var todo := codes;
    while todo != {}
      invariant todo <= codes && forall c :: c in order <==> c in codes - todo
      invariant forall i, d :: 0 <= i < |order| && d in todo ==> Less(order[i], d)
      invariant forall i, j :: 0 <= i < j < |order| ==> Less(order[i], order[j])
    {
      LeastExists(todo);
      var c :| c in todo && IsLeast(c, todo);
      order := order + [c];
      todo := todo - {c};
    }
  }

  lemma ActivityOf(activity: Activity, entries: seq<Entry>, chart: Chart, code: string)
    requires activity.Valid() && activity.Reflects(entries) && activity.expense == chart.expense
    ensures activity.Seen(code) == SeenOf(entries, chart, activity.yearEnd, activity.months, code)
    ensures activity.Totals(code) == TotalsOf(entries, chart, activity.yearEnd, activity.months, code)
    ensures code in activity.postYear <==> Spent(entries, chart.expense, code, MonthIndex(activity.yearEnd) + 1) > 0
  {}

  lemma PresentMeansSeen(activity: Activity, entries: seq<Entry>, chart: Chart)
    requires activity.Valid() && activity.Reflects(entries) && activity.expense == chart.expense
    ensures forall c :: c in activity.present <==>
      exists i :: 0 <= i < activity.months && SeenOf(entries, chart, activity.yearEnd, activity.months, c)[i]
  {
    forall c
      ensures c in activity.present <==>
        exists i :: 0 <= i < activity.months && SeenOf(entries, chart, activity.yearEnd, activity.months, c)[i]
    {
      assert activity.Seen(c) == SeenOf(entries, chart, activity.yearEnd, activity.months, c);
    }
  }

  /** The findings of every candidate account, in code order, each judged on what was really spent. */
  method FindMissingAccruals(entries: seq<Entry>, chart: Chart, yearEnd: Date, months: nat, minPresent: int)
    returns (order: seq<string>, findings: seq<Finding>)
    requires months >= 1
    ensures forall c :: c in order <==> Candidate(entries, chart, yearEnd, months, c)
    ensures forall i, j :: 0 <= i < j < |order| ==> Less(order[i], order[j])
    ensures findings == AllFindings(entries, chart, yearEnd, months, minPresent, order)
  {
    var activity := new Activity(months, yearEnd, chart.expense);
    activity.Scan(entries);
    order := SortCodes(activity.present.Keys + chart.predefined);
    PresentMeansSeen(activity, entries, chart);
    findings := JudgeAll(activity, entries, chart, minPresent, order);
  }

  method JudgeAll(activity: Activity, ghost entries: seq<Entry>, chart: Chart, minPresent: int, order: seq<string>)
    returns (findings: seq<Finding>)
    requires activity.Valid() && activity.Reflects(entries) && activity.expense == chart.expense
    ensures findings == AllFindings(entries, chart, activity.yearEnd, activity.months, minPresent, order)
  {
    hide CountSeen, AccountFindings, SeenOf, TotalsOf, Spent, MonthIndex;
    findings := [];
    for n := 0 to |order|
      invariant activity.Valid() && activity.Reflects(entries)
      invariant findings == AllFindings(entries, chart, activity.yearEnd, activity.months, minPresent, order[..n])
    {
      var code := order[n];
      assert order[..n + 1][..n] == order[..n];
      var seen, totals := activity.Seen(code), activity.Totals(code);
      ActivityOf(activity, entries, chart, code);
      if CountSeen(seen) >= minPresent || code in chart.predefined {
        var more := JudgeAccount(code, seen, totals, code in activity.postYear, minPresent);
        findings := findings + more;
      }
    }
    assert order[..|order|] == order;
  }
}
