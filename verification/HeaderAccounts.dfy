/** An income account whose profit no close ever reaches: postings accept header accounts, the balances of a close leave them out. */
module HeaderAccounts {
  import opened Wrappers
  import opened Sums
  import opened Money
  import opened Accounts
  import opened Ledger
  import opened Posting
  import opened FiscalCalendar
  import opened Reports
  import opened Books
  import opened BookInvariants
  import opened YearClose
  import opened BookRuns
  import opened Shop

  lemma NothingReported(s: Books)
    requires s.chart == Chart(true)
    ensures PeriodBalances(s, YEAR) == []
  {
    FilterNone(s.chart, Reported(ProfitAndLossKinds));
  }

  /**
   The failing input: the sale posts, the year closes without a word, and the income of
   the header account is still standing in it.
   */
  lemma HeaderIncomeSurvivesClose(amount: int)
    requires amount > 0
    ensures var s := AfterSale(true, amount);
      var (closed, outcome) := CloseYear(s, 0, "SAR");
      && outcome.Done? && |closed.periods| > 0 && closed.periods[0] == YEAR.(closed := true)
      && Movement(closed.rows, "sales", Span(YEAR)) == -amount
  {
    hide CloseYear, PeriodBalances, Inv, PostDocument, Movement, Find, FindRetained, NextFiscalPeriod;
    var s := AfterSale(true, amount);
    SaleMade(true, amount);
    NothingReported(s);
    OneYearClosable(s, true);
    CloseCompletesIff(s, 0, "SAR");
    CloseCloses(s, 0, "SAR");
    assert SalesAccount(true) in s.chart;
    CloseLeaves(s, 0, "SAR", SalesAccount(true));
  }
}
