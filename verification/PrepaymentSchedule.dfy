/** The amortisation working paper (`build_prepayment_schedule`). Money is in whole thousandths. */
module PrepaymentSchedule {
  import opened Wrappers
  import opened Rounding
  import opened Calendar
  import opened Prepayments
  import opened Terms

  /** A prepaid line; `period` is what its description was read as, if anything. */
  datatype Item = Item(amount: int, ledgerAmount: Option<int>, period: Option<Period>)

  datatype Row =
    | Unscheduled(amount: int, columns: nat)
    | Scheduled(amount: int, totalMonths: int, monthly: int, cells: seq<Option<int>>, balance: int)

  datatype Schedule = Schedule(
    rows: seq<Row>, columnTotals: seq<int>, balance: int, ledger: int, difference: int, reconciled: bool)

  /** `_released_months` */
  function ReleasedMonths(start: Date, cutoff: Date, totalMonths: int): (m: int)
    requires totalMonths >= 0
    ensures 0 <= m <= totalMonths
  {
    Max(0, Min(MonthIndex(cutoff) - MonthIndex(start) + 1, totalMonths))
  }

  function Cell(p: Period, col: Date, monthly: int): Option<int> {
    if OnOrBefore(EndOfMonth(p.start), col) && OnOrBefore(col, EndOfMonth(p.end)) then Some(monthly) else None
  }

  function CellsOf(p: Period, cols: seq<Date>, monthly: int): (cells: seq<Option<int>>)
    ensures |cells| == |cols|
  {
    seq(|cols|, i requires 0 <= i < |cols| => Cell(p, cols[i], monthly))
  }

  function RowOf(it: Item, cols: seq<Date>, yearEnd: Date): Row {
    match it.period
    case None => Unscheduled(it.amount, |cols|)
    case Some(p) =>
      var total := TotalMonths(p.start, p.end);
      var monthly := HalfUp(it.amount, total);
      Scheduled(it.amount, total, monthly, CellsOf(p, cols, monthly),
                it.amount - monthly * ReleasedMonths(p.start, yearEnd, total))
  }

  /** The carry-forward balance shown on a row; an undated line keeps its whole amount. */
  function BalanceOf(r: Row): int {
    if r.Unscheduled? then r.amount else r.balance
  }

  function CellAmount(r: Row, c: nat): int {
    if r.Scheduled? && c < |r.cells| && r.cells[c].Some? then r.cells[c].value else 0
  }

  function SumBalances(rows: seq<Row>): int {
    if rows == [] then 0 else SumBalances(rows[..|rows| - 1]) + BalanceOf(rows[|rows| - 1])
  }

  function SumColumn(rows: seq<Row>, c: nat): int {
    if rows == [] then 0 else SumColumn(rows[..|rows| - 1], c) + CellAmount(rows[|rows| - 1], c)
  }

  function LedgerOf(items: seq<Item>): int {
    if items == [] then 0
    else
      var it := items[|items| - 1];
      LedgerOf(items[..|items| - 1]) + (if it.ledgerAmount.Some? then it.ledgerAmount.value else it.amount)
  }

  /** One row per item, column and balance totals that are the sums over the rows, and the check
      against the real ledger balance when there is one, else against the posted amounts. */
  method BuildSchedule(items: seq<Item>, yearEnd: Date, months: nat, ledgerBalance: Option<int>)
    returns (schedule: Schedule)
    ensures |schedule.rows| == |items|
    ensures forall i :: 0 <= i < |items| ==> schedule.rows[i] == RowOf(items[i], FyMonthEnds(yearEnd, months), yearEnd)
    ensures |schedule.columnTotals| == months
    ensures forall c :: 0 <= c < months ==> schedule.columnTotals[c] == SumColumn(schedule.rows, c)
    ensures schedule.balance == SumBalances(schedule.rows)
    ensures Total(schedule.columnTotals) + schedule.balance == AmountsOf(items) + SumOverstated(items, yearEnd, months)
    ensures schedule.ledger == if ledgerBalance.Some? then ledgerBalance.value else LedgerOf(items)
    ensures schedule.difference == schedule.ledger - schedule.balance
    ensures schedule.reconciled <==> -1000 <= schedule.difference <= 1000
  {
    hide *;
    var cols := FyMonthEnds(yearEnd, months);
    var rows, totals, balance, ledgerSum := FillRows(items, cols, yearEnd);
    TotalsAre(rows, totals);
    GridTotal(items, rows, yearEnd, months);
    var ledger := if ledgerBalance.Some? then ledgerBalance.value else ledgerSum;
    var difference := ledger - balance;
    schedule := Schedule(rows, totals, balance, ledger, difference, -1000 <= difference <= 1000);
  }

  lemma TotalsAre(rows: seq<Row>, totals: seq<int>)
    requires forall c :: 0 <= c < |totals| ==> totals[c] == SumColumn(rows, c)
    ensures totals == ColumnTotals(rows, |totals|)
  {
    hide SumColumn;
  }

  /** The loop over the items: rows are appended, column totals updated in place. */
  method FillRows(items: seq<Item>, cols: seq<Date>, yearEnd: Date)
    returns (rows: seq<Row>, totals: seq<int>, balance: int, ledgerSum: int)
    ensures |rows| == |items| && forall i :: 0 <= i < |items| ==> rows[i] == RowOf(items[i], cols, yearEnd)
    ensures |totals| == |cols| && forall c :: 0 <= c < |cols| ==> totals[c] == SumColumn(rows, c)
    ensures balance == SumBalances(rows) && ledgerSum == LedgerOf(items)
  {
    hide TotalMonths, HalfUp, CellsOf;
    rows := [];
    var colTotals := new int[|cols|](_ => 0);
    balance, ledgerSum := 0, 0;
    for n := 0 to |items|
      invariant |rows| == n
      invariant forall i :: 0 <= i < n ==> rows[i] == RowOf(items[i], cols, yearEnd)
      invariant forall c :: 0 <= c < |cols| ==> colTotals[c] == SumColumn(rows, c)
      invariant balance == SumBalances(rows) && ledgerSum == LedgerOf(items[..n])
    {
      var it := items[n];
      assert items[..n + 1][..n] == items[..n];
      ledgerSum := ledgerSum + if it.ledgerAmount.Some? then it.ledgerAmount.value else it.amount;
      var row;
      if it.period.None? {
        row := Unscheduled(it.amount, |cols|);
        balance := balance + it.amount;
      } else {
        var p := it.period.value;
        var total := TotalMonths(p.start, p.end);
        var monthly := HalfUp(it.amount, total);
        var cells := AddCells(p, cols, monthly, colTotals);
        row := Scheduled(it.amount, total, monthly, cells,
                         it.amount - monthly * ReleasedMonths(p.start, yearEnd, total));
        balance := balance + row.balance;
      }
      assert (rows + [row])[..n] == rows;
      rows := rows + [row];
    }
    assert items[..|items|] == items;
    totals := colTotals[..];
  }

  /** The inner loop: fill one row's cells and add them to the running column totals in place. */
  method AddCells(p: Period, cols: seq<Date>, monthly: int, colTotals: array<int>) returns (cells: seq<Option<int>>)
    requires colTotals.Length == |cols|
    modifies colTotals
    ensures cells == CellsOf(p, cols, monthly)
    ensures forall c :: 0 <= c < |cols| ==>
      colTotals[c] == old(colTotals[c]) + if cells[c].Some? then cells[c].value else 0
  {
    cells := [];
    for i := 0 to |cols|
      invariant cells == CellsOf(p, cols, monthly)[..i]
      invariant forall c :: 0 <= c < |cols| ==>
        colTotals[c] == old(colTotals[c]) + if c < i && cells[c].Some? then cells[c].value else 0
    {
      var cell := Cell(p, cols[i], monthly);
      cells := cells + [cell];
      if cell.Some? {
        colTotals[i] := colTotals[i] + monthly;
      }
    }
  }

  // ----- Conservation --------------------------------------------------------------------------

  function SumCells(cells: seq<Option<int>>): int {
    if cells == [] then 0
    else
      var last := cells[|cells| - 1];
      SumCells(cells[..|cells| - 1]) + if last.Some? then last.value else 0
  }

  /** How many of the months `lo..hi` lie in `s..e` (all inclusive month indices). */
  function Overlap(lo: int, hi: int, s: int, e: int): int {
    Max(0, Min(hi, e) - Max(lo, s) + 1)
  }

  /** The number of grid columns that receive an instalment of `p`. */
  function ColumnsOf(p: Period, yearEnd: Date, months: nat): int {
    Overlap(MonthIndex(yearEnd) - months + 1, MonthIndex(yearEnd), MonthIndex(p.start), MonthIndex(p.end))
  }

  lemma CellAt(p: Period, yearEnd: Date, months: nat, monthly: int, i: nat)
    requires i < months
    ensures var month := MonthIndex(yearEnd) - months + 1 + i;
      CellsOf(p, FyMonthEnds(yearEnd, months), monthly)[i] ==
      if MonthIndex(p.start) <= month <= MonthIndex(p.end) then Some(monthly) else None
  {
    var cols := FyMonthEnds(yearEnd, months);
    FyMonthEndsConsecutive(yearEnd, months);
    MonthEndByIndex(EndOfMonth(p.start), cols[i]);
    MonthEndByIndex(cols[i], EndOfMonth(p.end));
  }

  lemma {:induction false} SumOfPrefix(p: Period, yearEnd: Date, months: nat, monthly: int, n: nat)
    requires n <= months
    ensures SumCells(CellsOf(p, FyMonthEnds(yearEnd, months), monthly)[..n]) ==
      monthly * Overlap(
        MonthIndex(yearEnd) - months + 1, MonthIndex(yearEnd) - months + n, MonthIndex(p.start), MonthIndex(p.end))
  {
    hide FyMonthEnds, Cell, CellsOf, Overlap;
    if n == 0 {
      NoMonths(monthly, MonthIndex(yearEnd) - months, MonthIndex(p.start), MonthIndex(p.end));
    } else {
      SumOfPrefix(p, yearEnd, months, monthly, n - 1);
      var cells := CellsOf(p, FyMonthEnds(yearEnd, months), monthly);
      assert cells[..n][..n - 1] == cells[..n - 1];
      CellAt(p, yearEnd, months, monthly, n - 1);
      AddOneMonth(monthly, MonthIndex(yearEnd) - months + 1, MonthIndex(yearEnd) - months + n,
                  MonthIndex(p.start), MonthIndex(p.end));
    }
  }

  lemma NoMonths(monthly: int, hi: int, s: int, e: int)
    ensures monthly * Overlap(hi + 1, hi, s, e) == 0
  {
    assert Overlap(hi + 1, hi, s, e) == 0;
  }

  lemma AddOneMonth(monthly: int, lo: int, hi: int, s: int, e: int)
    requires lo <= hi
    ensures monthly * Overlap(lo, hi, s, e) ==
      monthly * Overlap(lo, hi - 1, s, e) + if s <= hi <= e then monthly else 0
  {
    if s <= hi <= e {
      assert Overlap(lo, hi, s, e) == Overlap(lo, hi - 1, s, e) + 1;
    } else {
      assert Overlap(lo, hi, s, e) == Overlap(lo, hi - 1, s, e);
    }
  }

  /** The cells of a row hold one instalment per grid month of its term. */
  lemma SumOfCells(p: Period, yearEnd: Date, months: nat, monthly: int)
    ensures SumCells(CellsOf(p, FyMonthEnds(yearEnd, months), monthly)) == monthly * ColumnsOf(p, yearEnd, months)
  {
    SumOfPrefix(p, yearEnd, months, monthly, months);
    var cells := CellsOf(p, FyMonthEnds(yearEnd, months), monthly);
    assert cells[..months] == cells;
  }

  /** Exactly when the cost equals the cells shown plus the balance carried forward: when nothing is
      released at all, or the number of columns filled is the number of months counted as released. */
  lemma ConservedIff(it: Item, p: Period, yearEnd: Date, months: nat)
    requires it.period == Some(p)
    ensures var row := RowOf(it, FyMonthEnds(yearEnd, months), yearEnd);
      it.amount == SumCells(row.cells) + row.balance <==>
        row.monthly == 0 || ColumnsOf(p, yearEnd, months) == ReleasedMonths(p.start, yearEnd, row.totalMonths)
  {
    var row := RowOf(it, FyMonthEnds(yearEnd, months), yearEnd);
    SumOfCells(p, yearEnd, months, row.monthly);
    EqualProducts(row.monthly, ColumnsOf(p, yearEnd, months), ReleasedMonths(p.start, yearEnd, row.totalMonths));
  }

  lemma EqualProducts(m: int, a: int, b: int)
    ensures m * a == m * b <==> m == 0 || a == b
  {
    assert m * a - m * b == m * (a - b);
  }

  /** A term that starts inside the year, reaches the year-end's month and has not run out: nothing is
      lost, exactly. */
  lemma ConservedWithinYear(it: Item, p: Period, yearEnd: Date, months: nat)
    requires it.period == Some(p)
    requires MonthIndex(yearEnd) - months < MonthIndex(p.start) <= MonthIndex(yearEnd) <= MonthIndex(p.end)
    requires MonthIndex(yearEnd) - MonthIndex(p.start) + 1 <= TotalMonths(p.start, p.end)
    ensures var row := RowOf(it, FyMonthEnds(yearEnd, months), yearEnd);
      it.amount == SumCells(row.cells) + row.balance
  {
    ConservedIff(it, p, yearEnd, months);
  }

  /** From one year-end to the next the balance falls by exactly the instalments shown in the grid
      between them, wherever the term started, while it has not run out. */
  lemma BalanceRollsForward(it: Item, p: Period, previous: Date, yearEnd: Date, months: nat)
    requires it.period == Some(p) && MonthIndex(previous) + months == MonthIndex(yearEnd) <= MonthIndex(p.end)
    ensures var before := RowOf(it, FyMonthEnds(previous, months), previous);
      var after := RowOf(it, FyMonthEnds(yearEnd, months), yearEnd);
      MonthIndex(yearEnd) - MonthIndex(p.start) + 1 <= after.totalMonths ==>
        before.balance == SumCells(after.cells) + after.balance
  {
    hide TotalMonths, HalfUp, ReleasedMonths, ColumnsOf, CellsOf, FyMonthEnds;
    var total := TotalMonths(p.start, p.end);
    var monthly := HalfUp(it.amount, total);
    SumOfCells(p, yearEnd, months, monthly);
    if MonthIndex(yearEnd) - MonthIndex(p.start) + 1 <= total {
      ReleasedInBetween(p, previous, yearEnd, months, total);
      Distribute(monthly, ReleasedMonths(p.start, previous, total), ColumnsOf(p, yearEnd, months));
    }
  }

  lemma ReleasedInBetween(p: Period, previous: Date, yearEnd: Date, months: nat, total: int)
    requires MonthIndex(previous) + months == MonthIndex(yearEnd) <= MonthIndex(p.end)
    requires total >= 0 && MonthIndex(yearEnd) - MonthIndex(p.start) + 1 <= total
    ensures ReleasedMonths(p.start, yearEnd, total) ==
      ReleasedMonths(p.start, previous, total) + ColumnsOf(p, yearEnd, months)
  {}

  lemma Distribute(m: int, a: int, b: int)
    ensures m * (a + b) == m * a + m * b
  {}

  /** Once the whole term is released, what is left is rounding alone: half a thousandth a month. */
  lemma FullReleaseLeavesRounding(it: Item, p: Period, cols: seq<Date>, yearEnd: Date)
    requires it.period == Some(p)
    ensures var row := RowOf(it, cols, yearEnd);
      ReleasedMonths(p.start, yearEnd, row.totalMonths) == row.totalMonths ==>
        -row.totalMonths <= 2 * row.balance <= row.totalMonths
  {
    hide TotalMonths, ReleasedMonths, CellsOf, HalfUp;
    var total := TotalMonths(p.start, p.end);
    assert HalfUp(it.amount, total) * total == total * HalfUp(it.amount, total);
  }

  const MID_MONTH := Period(RawDate(2026, 7, 15), RawDate(2027, 7, 15))
  const MID_MONTH_COVER := Item(1200000, None, Some(MID_MONTH))

  /** A year's cover from mid-month to mid-month touches 13 months but lasts 12, so a grid wide enough
      to show them all shows one instalment too many: 1,200 paid, 1,300 shown, nothing carried forward. */
  lemma MidMonthCoverOvercounts()
    ensures var row := RowOf(MID_MONTH_COVER, FyMonthEnds(RawDate(2027, 7, 31), 24), RawDate(2027, 7, 31));
      row.Scheduled? && row.amount == 1200000 && SumCells(row.cells) == 1300000 && row.balance == 0
  {
    var yearEnd := RawDate(2027, 7, 31);
    DaysOfYearsCover();
    TermOf(MID_MONTH.start, MID_MONTH.end, 365, 12);
    MidMonthCounts();
    hide TotalMonths, ReleasedMonths, ColumnsOf, FyMonthEnds, CellsOf;
    SumOfCells(MID_MONTH, yearEnd, 24, 100000);
  }

  lemma MidMonthCounts()
    ensures ColumnsOf(MID_MONTH, RawDate(2027, 7, 31), 24) == 13
    ensures ReleasedMonths(MID_MONTH.start, RawDate(2027, 7, 31), 12) == 12
    ensures HalfUp(1200000, 12) == 100000
  {}

  lemma DaysOfYearsCover()
    ensures DayNumber(RawDate(2027, 7, 15)) - DayNumber(RawDate(2026, 7, 15)) == 365
  {
    assert MonthStart(24330) == 740162;
    assert MonthStart(24318) == 739797;
  }

  function Total(xs: seq<int>): int {
    if xs == [] then 0 else Total(xs[..|xs| - 1]) + xs[|xs| - 1]
  }

  function ColumnTotals(rows: seq<Row>, months: nat): seq<int> {
    seq(months, c requires 0 <= c => SumColumn(rows, c))
  }

  /** All the money a row shows. */
  function RowTotal(r: Row): int {
    if r.Scheduled? then SumCells(r.cells) + r.balance else r.amount
  }

  function SumTotals(rows: seq<Row>): int {
    if rows == [] then 0 else SumTotals(rows[..|rows| - 1]) + RowTotal(rows[|rows| - 1])
  }

  /** Summing the grid by columns or by rows is the same. */
  lemma {:induction false} ColumnsAreRows(rows: seq<Row>, months: nat)
    requires forall i :: 0 <= i < |rows| && rows[i].Scheduled? ==> |rows[i].cells| == months
    ensures Total(ColumnTotals(rows, months)) + SumBalances(rows) == SumTotals(rows)
  {
    if rows == [] {
      TotalOfZeros(ColumnTotals(rows, months));
    } else {
      var init, last := rows[..|rows| - 1], rows[|rows| - 1];
      ColumnsAreRows(init, months);
      var cells := seq(months, c requires 0 <= c => CellAmount(last, c));
      TotalAdds(ColumnTotals(init, months), cells, ColumnTotals(rows, months));
      if last.Scheduled? {
        TotalOfCells(cells, last.cells);
      } else {
        TotalOfZeros(cells);
      }
    }
  }

  function AmountsOf(items: seq<Item>): int {
    if items == [] then 0 else AmountsOf(items[..|items| - 1]) + items[|items| - 1].amount
  }

  /** What an item shows beyond its cost: an instalment for each column filled but not counted as released,
      less one for each month counted but not shown. */
  function Overstated(it: Item, yearEnd: Date, months: nat): int {
    match it.period
    case None => 0
    case Some(p) =>
      var total := TotalMonths(p.start, p.end);
      HalfUp(it.amount, total) * (ColumnsOf(p, yearEnd, months) - ReleasedMonths(p.start, yearEnd, total))
  }

  function SumOverstated(items: seq<Item>, yearEnd: Date, months: nat): int {
    if items == [] then 0
    else SumOverstated(items[..|items| - 1], yearEnd, months) + Overstated(items[|items| - 1], yearEnd, months)
  }

  lemma RowTotalIs(it: Item, yearEnd: Date, months: nat)
    ensures RowTotal(RowOf(it, FyMonthEnds(yearEnd, months), yearEnd)) == it.amount + Overstated(it, yearEnd, months)
  {
    hide TotalMonths, HalfUp, ReleasedMonths, ColumnsOf, CellsOf, FyMonthEnds;
    if it.period.Some? {
      var p := it.period.value;
      var total := TotalMonths(p.start, p.end);
      var monthly := HalfUp(it.amount, total);
      SumOfCells(p, yearEnd, months, monthly);
      Distribute(monthly, ColumnsOf(p, yearEnd, months), -ReleasedMonths(p.start, yearEnd, total));
    }
  }

  lemma {:induction false} SumTotalsIs(items: seq<Item>, rows: seq<Row>, yearEnd: Date, months: nat)
    requires |rows| == |items|
    requires forall i :: 0 <= i < |items| ==> rows[i] == RowOf(items[i], FyMonthEnds(yearEnd, months), yearEnd)
    ensures SumTotals(rows) == AmountsOf(items) + SumOverstated(items, yearEnd, months)
  {
    hide RowOf, RowTotal, Overstated, FyMonthEnds;
    if items != [] {
      SumTotalsIs(items[..|items| - 1], rows[..|rows| - 1], yearEnd, months);
      RowTotalIs(items[|items| - 1], yearEnd, months);
    }
  }

  lemma RowWidth(it: Item, yearEnd: Date, months: nat)
    ensures var row := RowOf(it, FyMonthEnds(yearEnd, months), yearEnd); row.Scheduled? ==> |row.cells| == months
  {
    hide TotalMonths, HalfUp, ReleasedMonths;
  }

  /** The grand total of the grid: columns and balance together hold the costs plus what the items overstate. */
  lemma GridTotal(items: seq<Item>, rows: seq<Row>, yearEnd: Date, months: nat)
    requires |rows| == |items|
    requires forall i :: 0 <= i < |items| ==> rows[i] == RowOf(items[i], FyMonthEnds(yearEnd, months), yearEnd)
    ensures Total(ColumnTotals(rows, months)) + SumBalances(rows) ==
      AmountsOf(items) + SumOverstated(items, yearEnd, months)
  {
    SumTotalsIs(items, rows, yearEnd, months);
    forall i | 0 <= i < |rows|
      ensures rows[i].Scheduled? ==> |rows[i].cells| == months
    {
      RowWidth(items[i], yearEnd, months);
    }
    hide RowOf, RowTotal, FyMonthEnds, SumTotals, SumBalances, SumOverstated, AmountsOf;
    ColumnsAreRows(rows, months);
  }

  /** An item is undated, or releases nothing, or fills as many columns as months counted as released. */
  predicate Conserves(it: Item, yearEnd: Date, months: nat) {
    it.period.Some? ==>
      var p := it.period.value;
      var total := TotalMonths(p.start, p.end);
      HalfUp(it.amount, total) == 0 || ColumnsOf(p, yearEnd, months) == ReleasedMonths(p.start, yearEnd, total)
  }

  lemma OverstatesNothingIff(it: Item, yearEnd: Date, months: nat)
    ensures Overstated(it, yearEnd, months) == 0 <==> Conserves(it, yearEnd, months)
  {
    hide TotalMonths, HalfUp, ReleasedMonths, ColumnsOf;
    if it.period.Some? {
      var p := it.period.value;
      var total := TotalMonths(p.start, p.end);
      ZeroProduct(HalfUp(it.amount, total), ColumnsOf(p, yearEnd, months) - ReleasedMonths(p.start, yearEnd, total));
    }
  }

  lemma ZeroProduct(m: int, k: int)
    ensures m * k == 0 <==> m == 0 || k == 0
  {}

  /** When every item conserves its cost, all the money posted is in the column totals or in the balance
      carried forward. */
  lemma GridConserves(items: seq<Item>, rows: seq<Row>, yearEnd: Date, months: nat)
    requires |rows| == |items|
    requires forall i :: 0 <= i < |items| ==> rows[i] == RowOf(items[i], FyMonthEnds(yearEnd, months), yearEnd)
    requires forall i :: 0 <= i < |items| ==> Conserves(items[i], yearEnd, months)
    ensures Total(ColumnTotals(rows, months)) + SumBalances(rows) == AmountsOf(items)
  {
    hide RowOf, FyMonthEnds, Conserves, Overstated, ColumnTotals, SumBalances;
    GridTotal(items, rows, yearEnd, months);
    NothingOverstated(items, yearEnd, months);
  }

  lemma {:induction false} NothingOverstated(items: seq<Item>, yearEnd: Date, months: nat)
    requires forall i :: 0 <= i < |items| ==> Conserves(items[i], yearEnd, months)
    ensures SumOverstated(items, yearEnd, months) == 0
  {
    hide Conserves, Overstated;
    if items != [] {
      NothingOverstated(items[..|items| - 1], yearEnd, months);
      OverstatesNothingIff(items[|items| - 1], yearEnd, months);
    }
  }

  lemma {:induction false} TotalOfZeros(xs: seq<int>)
    requires forall i :: 0 <= i < |xs| ==> xs[i] == 0
    ensures Total(xs) == 0
  {
    if xs != [] { TotalOfZeros(xs[..|xs| - 1]); }
  }

  lemma {:induction false} TotalAdds(xs: seq<int>, ys: seq<int>, zs: seq<int>)
    requires |xs| == |ys| == |zs| && forall i :: 0 <= i < |zs| ==> zs[i] == xs[i] + ys[i]
    ensures Total(zs) == Total(xs) + Total(ys)
  {
    if zs != [] { TotalAdds(xs[..|xs| - 1], ys[..|ys| - 1], zs[..|zs| - 1]); }
  }

  lemma {:induction false} TotalOfCells(xs: seq<int>, cells: seq<Option<int>>)
    requires |xs| == |cells|
    requires forall i :: 0 <= i < |xs| ==> xs[i] == if cells[i].Some? then cells[i].value else 0
    ensures Total(xs) == SumCells(cells)
  {
    if xs != [] { TotalOfCells(xs[..|xs| - 1], cells[..|cells| - 1]); }
  }
}
