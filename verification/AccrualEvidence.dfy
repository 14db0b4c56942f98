/** Which months of an account are reported as missing accruals, and with which figures, told from the ledger
    lines themselves. */
module AccrualEvidence {
  import opened Wrappers
  import opened Rounding
  import opened Calendar
  import opened Documents
  import opened MissingAccruals

  // ----- Cost in a month ------------------------------------------------------------------------

  /** A debit to an expense account. */
  predicate Debit(l: Line, chart: Chart, code: string) {
    l.accountCode == code && code != "" && code in chart.expense && l.amount.Some? && l.amount.value > 0
  }

  /** Some line of the ledger debits the account in that calendar month. */
  ghost predicate CostIn(entries: seq<Entry>, chart: Chart, code: string, month: int) {
    exists n, m :: 0 <= n < |entries| && 0 <= m < |entries[n].lines|
      && MonthIndex(entries[n].date) == month && Debit(entries[n].lines[m], chart, code)
  }

  lemma {:induction false} LinesCost(lines: seq<Line>, chart: Chart, code: string)
    ensures SpentOnLines(lines, chart.expense, code) > 0 <==>
      exists m :: 0 <= m < |lines| && Debit(lines[m], chart, code)
  {
    if lines != [] {
      var init := lines[..|lines| - 1];
      LinesCost(init, chart, code);
      if m :| 0 <= m < |lines| && Debit(lines[m], chart, code) {
        assert m < |init| ==> init[m] == lines[m];
      }
    }
  }

  lemma {:induction false} SpentIff(entries: seq<Entry>, chart: Chart, code: string, month: int)
    ensures Spent(entries, chart.expense, code, month) > 0 <==> CostIn(entries, chart, code, month)
  {
    if entries != [] {
      var init, e := entries[..|entries| - 1], entries[|entries| - 1];
      SpentIff(init, chart, code, month);
      LinesCost(e.lines, chart, code);
      hide Debit, SpentOnLines, MonthIndex;
      if CostIn(init, chart, code, month) {
        var n, m :| 0 <= n < |init| && 0 <= m < |init[n].lines|
                    && MonthIndex(init[n].date) == month && Debit(init[n].lines[m], chart, code);
        assert entries[n] == init[n];
      }
      if CostIn(entries, chart, code, month) {
        var n, m :| 0 <= n < |entries| && 0 <= m < |entries[n].lines|
                    && MonthIndex(entries[n].date) == month && Debit(entries[n].lines[m], chart, code);
        assert n < |init| ==> init[n] == entries[n];
      }
    }
  }

  /** What is spent adds up over the ledger, and a single line counts with its amount in its own month. */
  lemma {:induction false} SpentAdds(xs: seq<Entry>, ys: seq<Entry>, chart: Chart, code: string, month: int)
    ensures Spent(xs + ys, chart.expense, code, month) ==
      Spent(xs, chart.expense, code, month) + Spent(ys, chart.expense, code, month)
  {
    if ys == [] {
      assert xs + ys == xs;
    } else {
      var init, e := ys[..|ys| - 1], ys[|ys| - 1];
      SpentAdds(xs, init, chart, code, month);
      assert xs + ys == (xs + init) + [e];
      SpentSnoc(xs + init, e, chart.expense, code, month);
    }
  }

  lemma SpentOfLine(t: Date, l: Line, chart: Chart, code: string, month: int)
    ensures Spent([Entry(t, [l])], chart.expense, code, month) ==
      if MonthIndex(t) == month && Debit(l, chart, code) then l.amount.value else 0
  {
    SpentSnoc([], Entry(t, [l]), chart.expense, code, month);
    assert [] + [Entry(t, [l])] == [Entry(t, [l])] && [l][..0] == [];
    assert SpentOnLines([l][..0], chart.expense, code) == 0;
  }

  // ----- Months present and their average --------------------------------------------------------

  ghost function PresentMonths(seen: seq<bool>): set<int> {
    set i | 0 <= i < |seen| && seen[i]
  }

  /** The count of months present is the number of columns with cost. */
  lemma {:induction false} CountIsSize(seen: seq<bool>)
    ensures CountSeen(seen) == |PresentMonths(seen)|
  {
    if seen == [] {
      assert PresentMonths(seen) == {};
    } else {
      var n := |seen| - 1;
      CountIsSize(seen[..n]);
      assert PresentMonths(seen) == PresentMonths(seen[..n]) + if seen[n] then {n} else {};
    }
  }

  function SumOf(xs: seq<int>): int {
    if xs == [] then 0 else xs[0] + SumOf(xs[1..])
  }

  lemma {:induction false} SumSnoc(xs: seq<int>, x: int)
    ensures SumOf(xs + [x]) == SumOf(xs) + x
  {
    if xs == [] {
      assert [x][1..] == [];
    } else {
      SumSnoc(xs[1..], x);
      assert (xs + [x])[1..] == xs[1..] + [x];
    }
  }

  lemma {:induction false} SeenSumIsSum(seen: seq<bool>, totals: seq<int>)
    requires |seen| == |totals| && forall i :: 0 <= i < |seen| && !seen[i] ==> totals[i] == 0
    ensures SumSeen(seen, totals) == SumOf(totals)
  {
    if seen != [] {
      var n := |seen| - 1;
      SeenSumIsSum(seen[..n], totals[..n]);
      assert totals == totals[..n] + [totals[n]];
      SumSnoc(totals[..n], totals[n]);
    }
  }

  /** The nearest penny to a sum over a count, the even one of two; nothing when there is nothing to count. */
  predicate IsAverage(sum: int, count: int, average: int) {
    if count <= 0 then average == 0
    else
      && -count <= 2 * (sum - count * average) <= count
      && (2 * (sum - count * average) == count || 2 * (sum - count * average) == -count ==> average % 2 == 0)
  }

  lemma AverageIs(seen: seq<bool>, totals: seq<int>, average: int)
    requires |seen| == |totals| && forall i :: 0 <= i < |seen| && !seen[i] ==> totals[i] == 0
    ensures Average(seen, totals) == average <==> IsAverage(SumOf(totals), |PresentMonths(seen)|, average)
  {
    CountIsSize(seen);
    SeenSumIsSum(seen, totals);
    if CountSeen(seen) > 0 {
      HalfEvenIs(SumOf(totals), CountSeen(seen), average);
    }
    hide HalfEven, PresentMonths, SumOf, SumSeen, CountSeen;
  }

  lemma {:induction false} SeenSumBounds(seen: seq<bool>, totals: seq<int>, lo: int, hi: int)
    requires |seen| == |totals| && forall i :: 0 <= i < |seen| && seen[i] ==> lo <= totals[i] <= hi
    ensures CountSeen(seen) * lo <= SumSeen(seen, totals) <= CountSeen(seen) * hi
  {
    if seen != [] {
      var n := CountSeen(seen[..|seen| - 1]);
      SeenSumBounds(seen[..|seen| - 1], totals[..|seen| - 1], lo, hi);
      assert (n + 1) * lo == n * lo + lo && (n + 1) * hi == n * hi + hi;
    }
  }

  /** The average lies between the least and the greatest of the months present. */
  lemma AverageBetween(seen: seq<bool>, totals: seq<int>, lo: int, hi: int)
    requires |seen| == |totals| && PresentMonths(seen) != {}
    requires forall i :: 0 <= i < |seen| && seen[i] ==> lo <= totals[i] <= hi
    ensures lo <= Average(seen, totals) <= hi
  {
    CountIsSize(seen);
    SeenSumBounds(seen, totals, lo, hi);
    assert |PresentMonths(seen)| > 0;
    HalfEvenBounds(SumSeen(seen, totals), CountSeen(seen), lo);
    HalfEvenBounds(SumSeen(seen, totals), CountSeen(seen), hi);
    hide HalfEven, PresentMonths, SumSeen, CountSeen;
    assert CountSeen(seen) * lo == lo * CountSeen(seen) && CountSeen(seen) * hi == hi * CountSeen(seen);
  }

  // ----- The whole check ------------------------------------------------------------------------

  /** The calendar month of grid column `k`. */
  function MonthOf(yearEnd: Date, months: nat, k: int): int {
    MonthIndex(yearEnd) - (months - 1) + k
  }

  /** The columns in which the account has cost. */
  ghost function CostColumns(
    entries: seq<Entry>, chart: Chart, yearEnd: Date, months: nat, code: string): set<int>
  {
    set k | 0 <= k < months && CostIn(entries, chart, code, MonthOf(yearEnd, months, k))
  }

  lemma SeenAreCosts(entries: seq<Entry>, chart: Chart, yearEnd: Date, months: nat, code: string)
    ensures var seen := SeenOf(entries, chart, yearEnd, months, code);
      && (forall k :: 0 <= k < months ==> (seen[k] <==> CostIn(entries, chart, code, MonthOf(yearEnd, months, k))))
      && CountSeen(seen) == |CostColumns(entries, chart, yearEnd, months, code)|
  {
    var seen := SeenOf(entries, chart, yearEnd, months, code);
    CountIsSize(seen);
    hide CostIn, Spent, CountSeen;
    forall k | 0 <= k < months
      ensures seen[k] <==> CostIn(entries, chart, code, MonthOf(yearEnd, months, k))
    {
      SpentIff(entries, chart, code, MonthOf(yearEnd, months, k));
    }
    assert PresentMonths(seen) == CostColumns(entries, chart, yearEnd, months, code);
  }

  /** A month of an account is in a finding exactly when the account has no cost in it and either has cost in
      enough other months or, being regular by name, is asked about its final month. */
  lemma MonthReportedExactly(
    entries: seq<Entry>, chart: Chart, yearEnd: Date, months: nat, minPresent: int, code: string, k: int)
    requires 0 <= k < months
    ensures Reported(FindingsFor(entries, chart, yearEnd, months, minPresent, code), k) <==>
      && !CostIn(entries, chart, code, MonthOf(yearEnd, months, k))
      && (|CostColumns(entries, chart, yearEnd, months, code)| >= minPresent
          || (code in chart.predefined && k == months - 1))
  {
    SeenAreCosts(entries, chart, yearEnd, months, code);
    var seen, totals := SeenOf(entries, chart, yearEnd, months, code), TotalsOf(entries, chart, yearEnd, months, code);
    var late := Spent(entries, chart.expense, code, MonthIndex(yearEnd) + 1) > 0;
    MissingMonthsReported(code, seen, totals, late, minPresent, k);
    hide SeenOf, TotalsOf, Spent, CountSeen, AccountFindings, CostIn, CostColumns;
  }

  /** Every finding gives the number of columns with cost and their average; one of the final month calls it a
      cut-off exactly when the account has cost in the month after the year-end. */
  lemma FindingSays(
    entries: seq<Entry>, chart: Chart, yearEnd: Date, months: nat, minPresent: int, code: string, f: Finding)
    requires months >= 1 && f in FindingsFor(entries, chart, yearEnd, months, minPresent, code)
    ensures f.code == code && f.monthsPresent == |CostColumns(entries, chart, yearEnd, months, code)|
    ensures IsAverage(SumOf(TotalsOf(entries, chart, yearEnd, months, code)), f.monthsPresent, f.average)
    ensures f.reason == PostYearCutoff <==>
      f.end == months && CostIn(entries, chart, code, MonthIndex(yearEnd) + 1)
    ensures f.reason == FinalMonthMissing <==>
      f.end == months && !CostIn(entries, chart, code, MonthIndex(yearEnd) + 1)
    ensures f.reason == LargeGap <==> f.end - f.first >= 2
  {
    SeenAreCosts(entries, chart, yearEnd, months, code);
    SpentIff(entries, chart, code, MonthIndex(yearEnd) + 1);
    var seen, totals := SeenOf(entries, chart, yearEnd, months, code), TotalsOf(entries, chart, yearEnd, months, code);
    var late := Spent(entries, chart.expense, code, MonthIndex(yearEnd) + 1) > 0;
    var fs := AccountFindings(code, seen, totals, late, minPresent);
    var a :| 0 <= a < |fs| && fs[a] == f;
    FindingKinds(code, seen, totals, late, minPresent, a);
    FindingFigures(code, seen, totals, late, minPresent, a);
    NothingUnseen(entries, chart, yearEnd, months, code);
    AverageIs(seen, totals, f.average);
    CountIsSize(seen);
    hide SeenOf, TotalsOf, Spent, CountSeen, AccountFindings, CostIn, CostColumns, Average, IsAverage, SumOf;
  }

  lemma NothingUnseen(entries: seq<Entry>, chart: Chart, yearEnd: Date, months: nat, code: string)
    ensures var seen := SeenOf(entries, chart, yearEnd, months, code);
      forall i :: 0 <= i < months && !seen[i] ==> TotalsOf(entries, chart, yearEnd, months, code)[i] == 0
  {
    hide Spent;
  }

  lemma FindingFigures(code: string, seen: seq<bool>, totals: seq<int>, postYear: bool, minPresent: int, a: int)
    requires |seen| == |totals| && |seen| >= 1
    requires 0 <= a < |AccountFindings(code, seen, totals, postYear, minPresent)|
    ensures var f := AccountFindings(code, seen, totals, postYear, minPresent)[a];
      f.monthsPresent == CountSeen(seen) && f.average == Average(seen, totals)
  {
    FindingsShape(code, seen, totals, postYear, minPresent);
    hide InterimRuns, Average, CountSeen, AccountFindings;
  }
}
