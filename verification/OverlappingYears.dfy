/**
 A company that changes its fiscal start gets two years that overlap. Closing both
 hands the profit of the first one back to the second, and the earnings show it again.
 */
module OverlappingYears {
  import opened Wrappers
  import opened Sums
  import opened Money
  import opened Accounts
  import opened Ledger
  import opened Posting
  import opened FiscalCalendar
  import opened Reports
  import opened Books
  import opened BookInvariants
  import opened YearClose
  import opened CloseEffect
  import opened BookRuns
  import opened LedgerRuns
  import opened Shop

  /** The second year starts inside the first, which one date precedes; another date is in the second alone. */
  predicate Overlapping(a: Period, b: Period, first: int, second: int) {
    && !a.closed && !b.closed && YearOf(a.end) != YearOf(b.end)
    && a.start <= first < b.start <= a.end < second <= b.end
  }

  function Opened(a: Period, b: Period): Books { Books(Chart(false), [], [], [a, b], []) }

  /** A sale before the second year begins, and the close of the first. */
  function Sold(a: Period, b: Period, first: int, amount: int): Books {
    PostDocument(Opened(a, b), Sale("first", first, amount)).0
  }
  function FirstClosed(a: Period, b: Period, first: int, amount: int): Books { CloseYear(Sold(a, b, first, amount), 0, "SAR").0 }

  /** The same sale after the first year has ended, and the close of the second. */
  function SoldAgain(a: Period, b: Period, first: int, second: int, amount: int): Books {
    PostDocument(FirstClosed(a, b, first, amount), Sale("second", second, amount)).0
  }
  function BothClosed(a: Period, b: Period, first: int, second: int, amount: int): Books {
    CloseYear(SoldAgain(a, b, first, second, amount), 1, "SAR").0
  }

  lemma DoneClosesLedger(s: Books, p: nat)
    requires CloseYear(s, p, "SAR").1.Done?
    ensures ClosesLedger(s, p, "SAR")
  {
    hide PostClosing, CarryForward;
  }

  lemma CanCloseFirst(s: Books, a: Period, b: Period, first: int, second: int)
    requires Overlapping(a, b, first, second)
    requires s.chart == Chart(false) && s.periods == [a, b] && s.closings == []
    ensures CloseRefusal(s, 0).None?
    ensures var next := NextFiscalPeriod(a.end); !PeriodExists(s.periods, next.start, next.end)
  {
    hide YearOf, MonthOf, DateOf, Utc, FindRetained;
    ChartIsOk(false);
  }

  /** What the close of the first year leaves: the year closed, its successor open, and one record of a close. */
  lemma FirstCloseShape(s: Books, a: Period, b: Period)
    requires s.periods == [a, b] && s.closings == [] && CloseYear(s, 0, "SAR").1.Done?
    ensures var t := CloseYear(s, 0, "SAR").0;
      var next := NextFiscalPeriod(a.end);
      && t.chart == s.chart && t.periods == [a.(closed := true), b, Period(next.start, next.end, false)]
      && |t.closings| == 1 && t.closings[0].fiscalYear == YearOf(a.end) && t.closings[0].period == 0
  {
    hide PostClosing, OpeningLines, PeriodBalances, NextFiscalPeriod, YearOf, ClosedOn, PeriodExists, YearRecorded, NewDraft, NetIncome;
    PostClosingRows(s, s.periods[0], FindRetained(s.chart).value.id, "SAR");
    assert [a, b][0 := a.(closed := true)] == [a.(closed := true), b];
  }

  lemma CanCloseSecond(s: Books, a: Period, b: Period, first: int, second: int)
    requires Overlapping(a, b, first, second) && s.chart == Chart(false)
    requires var next := NextFiscalPeriod(a.end); s.periods == [a.(closed := true), b, Period(next.start, next.end, false)]
    requires |s.closings| == 1 && s.closings[0].fiscalYear == YearOf(a.end)
    ensures CloseRefusal(s, 1).None? && !ClosedOn(s.periods, second)
    ensures var next := NextFiscalPeriod(b.end); !PeriodExists(s.periods, next.start, next.end)
  {
    hide YearOf, MonthOf, DateOf, Utc, FindRetained;
    ChartIsOk(false);
  }

  lemma SoldMoves(a: Period, b: Period, first: int, second: int, amount: int, w: Window)
    requires Overlapping(a, b, first, second) && amount > 0
    ensures var s := Sold(a, b, first, amount);
      Inv(s) && Movement(s.rows, "sales", w) == if Within(w, first) then -amount else 0
  {
    hide Inv, PostDocument, Movement, YearOf, DocumentRows;
    OpenedOk(a, b);
    SalePosts(Opened(a, b), false, "first", first, amount, w);
    NothingYet(w);
    DocumentKeeps(Opened(a, b), Sale("first", first, amount));
  }

  /** The first half: the sale leaves the first year and reappears, on the other side, in the second. */
  lemma AfterFirstClose(a: Period, b: Period, first: int, second: int, amount: int, date: int)
    requires Overlapping(a, b, first, second) && amount > 1 && date >= b.end
    ensures var t := FirstClosed(a, b, first, amount);
      && Inv(t) && CloseYear(Sold(a, b, first, amount), 0, "SAR").1.Done?
      && Movement(t.rows, "sales", Span(b)) == amount && Movement(t.rows, "sales", AsOf(date)) == 0
  {
    hide CloseYear, Inv, Sold, Movement, CloseRefusal, PeriodExists, NextFiscalPeriod, YearOf;
    var s := Sold(a, b, first, amount);
    SoldShape(a, b, first, second, amount);
    SoldMoves(a, b, first, second, amount, Span(a));
    SoldMoves(a, b, first, second, amount, Span(b));
    SoldMoves(a, b, first, second, amount, AsOf(date));
    CanCloseFirst(s, a, b, first, second);
    ClosesIff(s, 0, amount);
    DoneClosesLedger(s, 0);
    CloseKeeps(s, 0, "SAR");
    assert SalesAccount(false) in s.chart;
    CloseMovesAccount(s, 0, "SAR", SalesAccount(false), Span(b));
    CloseMovesAccount(s, 0, "SAR", SalesAccount(false), AsOf(date));
  }

  lemma OpenedOk(a: Period, b: Period)
    ensures Inv(Opened(a, b))
  {
    ChartIsOk(false);
  }

  lemma NothingYet(w: Window)
    ensures Movement([], "sales", w) == 0
  {
  }

  lemma SoldShape(a: Period, b: Period, first: int, second: int, amount: int)
    requires Overlapping(a, b, first, second) && amount > 0
    ensures var s := Sold(a, b, first, amount);
      && s.chart == Chart(false) && s.periods == [a, b] && s.closings == [] && s.rows == DocumentRows(Sale("first", first, amount))
  {
    hide PostDocument, Movement, DocumentRows, YearOf;
    SalePosts(Opened(a, b), false, "first", first, amount, Span(a));
    assert [] + DocumentRows(Sale("first", first, amount)) == DocumentRows(Sale("first", first, amount));
  }

  /** Every row so far is dated at the sale or at the end of the closed year, and none is of the second sale. */
  lemma FirstRows(a: Period, b: Period, first: int, second: int, amount: int)
    requires Overlapping(a, b, first, second) && amount > 1
    ensures var t := FirstClosed(a, b, first, amount);
      && (forall r :: r in t.rows ==> r.date in {first, a.end} && r.origin != FromDocument("INVOICE", "second"))
  {
    hide CloseYear, PostDocument, ClosingRows, YearOf, ClosesLedger;
    var s := Sold(a, b, first, amount);
    SoldShape(a, b, first, second, amount);
    CloseRows(s, 0, "SAR");
    if ClosesLedger(s, 0, "SAR") {
      ClosesWhat(s, 0);
      forall r | r in ClosingRows(s, 0, "SAR") ensures r.date == a.end && r.origin.FromJournal? {
        ClosingDate(s, 0, "SAR", r);
        ClosingRowsOrigin(s, 0, "SAR");
      }
    }
  }

  lemma ClosesWhat(s: Books, p: nat)
    requires ClosesLedger(s, p, "SAR")
    ensures p < |s.periods| && FindRetained(s.chart).Some?
  {
  }

  /** The second half: the second year closes with nothing to move, and the sale still stands on the account. */
  lemma AfterSecondClose(a: Period, b: Period, first: int, second: int, amount: int, date: int)
    requires Overlapping(a, b, first, second) && amount > 1 && date >= b.end
    ensures var s := SoldAgain(a, b, first, second, amount);
      var t := BothClosed(a, b, first, second, amount);
      && CloseYear(s, 1, "SAR").1.Done? && Inv(t) && t.chart == Chart(false)
      && |t.periods| >= 2 && t.periods[0] == a.(closed := true) && t.periods[1] == b.(closed := true)
      && |t.closings| == 2 && t.closings[0].period == 0 && t.closings[1].period == 1
      && Movement(t.rows, "sales", AsOf(date)) == -amount
      && forall r :: r in t.rows ==> r.date in {first, a.end, second, b.end}
  {
    hide CloseYear, Inv, PostDocument, Movement, CloseRefusal, PeriodExists, NextFiscalPeriod, YearOf, ClosingRows, DocumentRows, ClosesLedger;
    var closed, s := FirstClosed(a, b, first, amount), SoldAgain(a, b, first, second, amount);
    AfterFirstClose(a, b, first, second, amount, date);
    SoldShape(a, b, first, second, amount);
    FirstCloseShape(Sold(a, b, first, amount), a, b);
    FirstRows(a, b, first, second, amount);
    CanCloseSecond(closed, a, b, first, second);
    SalePosts(closed, false, "second", second, amount, Span(b));
    SalePosts(closed, false, "second", second, amount, AsOf(date));
    DocumentKeeps(closed, Sale("second", second, amount));
    CanCloseSecond(s, a, b, first, second);
    ClosesIff(s, 1, 0);
    DoneClosesLedger(s, 1);
    CloseKeeps(s, 1, "SAR");
    CloseCloses(s, 1, "SAR");
    assert SalesAccount(false) in s.chart;
    CloseMovesAccount(s, 1, "SAR", SalesAccount(false), AsOf(date));
    CloseRows(s, 1, "SAR");
    SecondCloseKeeps(s);
    SaleDates("second", second, amount);
    forall r | r in ClosingRows(s, 1, "SAR") ensures r.date == b.end { ClosingDate(s, 1, "SAR", r); }
  }

  lemma SaleDates(id: string, date: int, amount: int)
    ensures forall r :: r in DocumentRows(Sale(id, date, amount)) ==> r.date == date
  {
  }

  /** Closing one year leaves the others, and the records of earlier closes, as they were. */
  lemma SecondCloseKeeps(s: Books)
    requires |s.periods| >= 2 && |s.closings| == 1 && CloseYear(s, 1, "SAR").1.Done?
    ensures var t := CloseYear(s, 1, "SAR").0;
      |t.periods| >= 2 && t.periods[0] == s.periods[0] && |t.closings| == 2 && t.closings[0] == s.closings[0]
  {
    hide PostClosing, OpeningLines, PeriodBalances, NextFiscalPeriod, YearOf, ClosedOn, PeriodExists, YearRecorded, NewDraft, NetIncome;
    PostClosingRows(s, s.periods[1], FindRetained(s.chart).value.id, "SAR");
  }

  lemma EarningsOfSales(t: Books, rows: seq<Row>, date: int)
    requires t.chart == Chart(false)
    ensures EarningsOf(t, rows, date) == -Movement(rows, "sales", AsOf(date))
  {
    hide Movement;
    var w := AsOf(date);
    var chart := Chart(false);
    ChartIsOk(false);
    AggregateSum(chart, rows, w, AllKinds, EarningsWeight());
    var f := OnAccounts(rows, w, AllKinds, EarningsWeight());
    SumOfThree(BANK, SalesAccount(false), RETAINED, f);
    AccountEarnings(rows, BANK, w);
    AccountEarnings(rows, SalesAccount(false), w);
    AccountEarnings(rows, RETAINED, w);
  }

  /**
   The failing input, for any two overlapping years and any amount: both years close,
   every row of the ledger lies in one of them, and the balance sheet still shows the
   amount as unclosed earnings.
   */
  lemma OverlapLeavesProfit(a: Period, b: Period, first: int, second: int, amount: int, date: int)
    requires Overlapping(a, b, first, second) && amount > 1 && date >= b.end
    ensures var t := BothClosed(a, b, first, second, amount);
      && Inv(t) && |t.periods| >= 2 && t.periods[0] == a.(closed := true) && t.periods[1] == b.(closed := true)
      && Filter(t.rows, OutsideYears(t, date)) == []
      && EarningsOf(t, t.rows, date) == amount && RepeatedProfit(t, date) == amount
  {
    hide BothClosed, Inv, Movement, YearOf, RepeatedProfit, EarningsOf;
    var t := BothClosed(a, b, first, second, amount);
    AfterSecondClose(a, b, first, second, amount, date);
    forall r | r in t.rows ensures !OutsideYears(t, date)(r) {
      var c := if r.date in {first, a.end} then t.closings[0] else t.closings[1];
      assert c in t.closings && InYear(t.periods, c, date, r.date);
    }
    FilterNone(t.rows, OutsideYears(t, date));
    EarningsOfSales(t, t.rows, date);
    EarningsOfSales(t, [], date);
    NothingYet(AsOf(date));
    EarningsOutside(t, date);
  }

  // ---- How such years come about ----

  /** A calendar year, and the year from July on that is added once the start has changed. */
  lemma ChangedStartOverlaps(s: Books, y: int)
    requires y >= 101 && s.periods == []
    ensures var t := EnsurePeriod(EnsurePeriod(s, Utc(y, 0, 1), "01-01"), Utc(y, 6, 1), "07-01");
      && |t.periods| == 2 && t.periods[0] == Period(Utc(y, 0, 1), Utc(y + 1, 0, 1) - 1, false)
      && t.periods[1] == Period(Utc(y, 6, 1), Utc(y + 1, 6, 1) - 1, false)
      && Overlapping(t.periods[0], t.periods[1], Utc(y, 0, 1), Utc(y + 1, 0, 1))
  {
    hide Utc, YearOf, DayFromYear, IsLeap;
    assert ParseStart("01-01") == (0, 1) && ParseStart("07-01") == (6, 1);
    MonthsInOrder(y);
    MonthsInOrder(y + 1);
    StartYearIs(Utc(y, 0, 1), y, 0, 1);
    StartYearIs(Utc(y, 6, 1), y, 6, 1);
    FiscalYearOf(y, 0, 1);
    FiscalYearOf(y, 6, 1);
  }

  lemma MonthsInOrder(y: int)
    requires y >= 100
    ensures Utc(y, 0, 1) < Utc(y, 6, 1) < Utc(y + 1, 0, 1) < Utc(y + 1, 6, 1)
  {
    hide DayFromYear, IsLeap;
    NextYear(y);
  }
}
