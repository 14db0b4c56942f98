/** What one row of the amortisation grid says, told from the dates and the amount of its item. */
module ScheduleRows {
  import opened Wrappers
  import opened Rounding
  import opened Calendar
  import opened Terms
  import opened Prepayments
  import opened PrepaymentSchedule

  // ----- Months released -----------------------------------------------------------------------

  /** Month `k` of a term, counted from nought, has begun by `cutoff`. */
  predicate Begun(start: Date, cutoff: Date, k: int) {
    MonthIndex(start) + k <= MonthIndex(cutoff)
  }

  /** `n` of the term's months have begun, and they are the first ones. */
  ghost predicate BegunMonths(start: Date, cutoff: Date, total: nat, n: int) {
    0 <= n <= total && forall k :: 0 <= k < total ==> (Begun(start, cutoff, k) <==> k < n)
  }

  /** The months counted as released are the months of the term that have begun. */
  lemma ReleasedAreBegun(start: Date, cutoff: Date, total: nat, n: int)
    ensures ReleasedMonths(start, cutoff, total) == n <==> BegunMonths(start, cutoff, total, n)
  {
    var released := ReleasedMonths(start, cutoff, total);
    assert BegunMonths(start, cutoff, total, released);
    hide ReleasedMonths;
    if BegunMonths(start, cutoff, total, n) {
      assert n < total ==> !Begun(start, cutoff, n);
      assert released < total ==> !Begun(start, cutoff, released);
    }
  }

  // ----- The figures of a row -------------------------------------------------------------------

  /** The amount spread evenly, to the nearest thousandth and away from zero on a tie. */
  predicate EvenShare(amount: int, months: int, share: int) {
    && -months <= 2 * (amount - months * share) <= months
    && if amount >= 0 then 2 * (amount - months * share) < months else 2 * (amount - months * share) > -months
  }

  /** One instalment in each grid month of the period. */
  predicate InstalmentsOf(cells: seq<Option<int>>, monthly: int, p: Period, yearEnd: Date, months: nat) {
    && |cells| == months
    && forall i :: 0 <= i < months ==>
         cells[i] ==
           var month := MonthIndex(yearEnd) - months + 1 + i;
           if MonthIndex(p.start) <= month <= MonthIndex(p.end) then Some(monthly) else None
  }

  /** What the months of the term begun by the year-end have not used. */
  ghost predicate CarriesForward(balance: int, amount: int, monthly: int, p: Period, yearEnd: Date, total: nat) {
    exists n :: BegunMonths(p.start, yearEnd, total, n) && balance == amount - monthly * n
  }

  /** A row has an even share of the cost in each grid month of the period, and carries forward what the begun
      months have not used. */
  ghost predicate Spreads(r: Row, amount: int, p: Period, yearEnd: Date, months: nat) {
    && r.Scheduled? && r.amount == amount && TermIs(p.start, p.end, r.totalMonths)
    && EvenShare(amount, r.totalMonths, r.monthly) && InstalmentsOf(r.cells, r.monthly, p, yearEnd, months)
    && CarriesForward(r.balance, amount, r.monthly, p, yearEnd, r.totalMonths)
  }

  /** Every dated item gets such a row; an undated one keeps its whole amount. */
  lemma RowMeans(it: Item, yearEnd: Date, months: nat)
    ensures var row := RowOf(it, FyMonthEnds(yearEnd, months), yearEnd);
      match it.period
      case None => row == Unscheduled(it.amount, months) && BalanceOf(row) == it.amount
      case Some(p) => Spreads(row, it.amount, p, yearEnd, months) && BalanceOf(row) == row.balance
  {
    if it.period.Some? {
      var p := it.period.value;
      var total := TotalMonths(p.start, p.end);
      var monthly := HalfUp(it.amount, total);
      TotalMonthsIs(p.start, p.end, total);
      HalfUpIs(it.amount, total, monthly);
      CellsAreInstalments(p, yearEnd, months, monthly);
      BalanceCarries(it.amount, monthly, p, yearEnd, total);
      hide TotalMonths, HalfUp, ReleasedMonths, CellsOf, FyMonthEnds, InstalmentsOf, CarriesForward, TermIs;
    }
  }

  lemma CellsAreInstalments(p: Period, yearEnd: Date, months: nat, monthly: int)
    ensures InstalmentsOf(CellsOf(p, FyMonthEnds(yearEnd, months), monthly), monthly, p, yearEnd, months)
  {
    hide MonthIndex, FyMonthEnds, Cell;
    forall i: nat | i < months
      ensures CellsOf(p, FyMonthEnds(yearEnd, months), monthly)[i] ==
        var month := MonthIndex(yearEnd) - months + 1 + i;
        if MonthIndex(p.start) <= month <= MonthIndex(p.end) then Some(monthly) else None
    {
      CellAt(p, yearEnd, months, monthly, i);
    }
  }

  lemma BalanceCarries(amount: int, monthly: int, p: Period, yearEnd: Date, total: nat)
    ensures CarriesForward(
      amount - monthly * ReleasedMonths(p.start, yearEnd, total), amount, monthly, p, yearEnd, total)
  {
    ReleasedAreBegun(p.start, yearEnd, total, ReleasedMonths(p.start, yearEnd, total));
    hide ReleasedMonths, BegunMonths;
  }

  // ----- Terms that have run out or not begun -----------------------------------------------------

  /** Once the last month of the term has begun, only rounding is left, at most half a thousandth a month, and the
      balance is the same at every later year-end. */
  lemma ExpiredLeavesRounding(it: Item, p: Period, yearEnd: Date, later: Date, months: nat, more: nat)
    requires it.period == Some(p) && MonthIndex(later) >= MonthIndex(yearEnd)
    requires MonthIndex(yearEnd) - MonthIndex(p.start) + 1 >= TotalMonths(p.start, p.end)
    ensures var row := RowOf(it, FyMonthEnds(yearEnd, months), yearEnd);
      && row.Scheduled? && -row.totalMonths <= 2 * row.balance <= row.totalMonths
      && RowOf(it, FyMonthEnds(later, more), later).Scheduled?
      && RowOf(it, FyMonthEnds(later, more), later).balance == row.balance
  {
    FullyReleased(p.start, yearEnd, TotalMonths(p.start, p.end));
    FullyReleased(p.start, later, TotalMonths(p.start, p.end));
    FullReleaseLeavesRounding(it, p, FyMonthEnds(yearEnd, months), yearEnd);
    hide TotalMonths, HalfUp, ReleasedMonths, CellsOf, FyMonthEnds;
  }

  lemma FullyReleased(start: Date, cutoff: Date, total: nat)
    requires MonthIndex(cutoff) - MonthIndex(start) + 1 >= total
    ensures ReleasedMonths(start, cutoff, total) == total
  {}

  /** Until the term's first month begins the whole cost is carried forward. */
  lemma NotBegunKeepsAll(it: Item, p: Period, yearEnd: Date, months: nat)
    requires it.period == Some(p) && MonthIndex(yearEnd) < MonthIndex(p.start)
    ensures var row := RowOf(it, FyMonthEnds(yearEnd, months), yearEnd);
      row.Scheduled? && row.balance == it.amount
  {
    NoneReleased(p.start, yearEnd, TotalMonths(p.start, p.end));
    hide TotalMonths, HalfUp, ReleasedMonths, CellsOf, FyMonthEnds, MonthIndex;
    assert HalfUp(it.amount, TotalMonths(p.start, p.end)) * 0 == 0;
  }

  lemma NoneReleased(start: Date, cutoff: Date, total: nat)
    requires MonthIndex(cutoff) < MonthIndex(start)
    ensures ReleasedMonths(start, cutoff, total) == 0
  {}
}
