/** What a completed year close leaves in the tables besides ledger rows: its journals, the next period and its record. */
module CloseRecords {
  import opened Wrappers
  import opened Sums
  import opened Money
  import opened Accounts
  import opened Ledger
  import opened Posting
  import opened FiscalCalendar
  import opened Reports
  import opened Books
  import opened BookInvariants
  import opened YearClose
  import opened CloseEffect
  import opened BookRuns

  /** The books between the posting of the closing journal and the carry-forward. */
  function Closed(s: Books, p: nat, currency: string): Books
    requires CloseRefusal(s, p).None?
  {
    PostClosing(s, s.periods[p], FindRetained(s.chart).value.id, currency).0
  }

  /** The closing journal is the only one that posting it adds, and it is posted unless it has no lines. */
  lemma ClosedJournals(s: Books, p: nat, currency: string)
    requires ClosesLedger(s, p, currency)
    ensures var (t, period) := (Closed(s, p, currency), s.periods[p]);
      && |t.journals| == |s.journals| + 1 && t.journals[..|s.journals|] == s.journals
      && t.chart == s.chart && t.periods == s.periods && t.closings == s.closings
      && var j := t.journals[|s.journals|];
         && j.kind == Closing && j.date == period.end && j.currency == currency && j.source == None
         && j.lines == ClosingLines(PeriodBalances(s, period), FindRetained(s.chart).value.id)
         && (j.status.Posted? <==> j.lines != [])
  {
    hide PostingRefusal, PeriodBalances, ClosingLines;
    var (period, retained) := (s.periods[p], FindRetained(s.chart).value.id);
    var draft := ClosingDraft(s, period, retained, currency);
    PostClosingRows(s, period, retained, currency);
    if draft.totalDebit >= 0 && draft.totalCredit >= 0 && exists l :: l in draft.lines && !LineAllowed(l) {
      NoLinesNoPost(CreateDraft(s, draft).0, |s.journals|);
    }
  }

  /** The tables after a completed close, in terms of those before the carry-forward. */
  lemma CarriedTables(s: Books, p: nat, currency: string)
    requires CloseYear(s, p, currency).1.Done?
    ensures ClosesLedger(s, p, currency)
    ensures var (t, u, period) := (CloseYear(s, p, currency).0, Closed(s, p, currency), s.periods[p]);
      var next := NextFiscalPeriod(period.end);
      && t.chart == u.chart && t.rows == u.rows
      && t.journals == u.journals + [NewDraft(Opening, next.start, currency, OpeningLines(u, period.end), None)]
      && t.periods == s.periods[p := period.(closed := true)] + [Period(next.start, next.end, false)]
      && t.closings == s.closings
           + [YearClosing(YearOf(period.end), p, NetIncome(PeriodBalances(s, period)), |s.journals|, |s.journals| + 1)]
  {
    hide PostClosing, OpeningLines, NextFiscalPeriod, PeriodBalances, NewDraft, YearOf, NetIncome, ClosingLines;
    PostClosingRows(s, s.periods[p], FindRetained(s.chart).value.id, currency);
    ClosedJournals(s, p, currency);
  }

  /** What the memorandum should carry: an account's movement up to the date, on its normal side, when it exceeds a unit. */
  function CarriedOf(t: Books, a: Account, date: int): int {
    var moved := Movement(t.rows, a.id, AsOf(date));
    var size: int := Abs(moved);
    if size <= 1 then 0 else if a.normal.Debit? then size else -size
  }

  /**
   The last journal of the books after a close is the opening memorandum: a draft dated at
   the start of the next period whose lines come, on every listed asset, liability and
   equity account, to the account's balance at the end of the closed one. That is the
   balance itself exactly when it is zero or above one unit on the account's normal side.
   */
  lemma MemorandumIsStored(s: Books, p: nat, currency: string, a: Account)
    requires ChartOk(s.chart) && CloseYear(s, p, currency).1.Done?
    requires a in s.chart && a.Listed() && a.kind in {Asset, Liability, Equity}
    ensures p < |s.periods|
    ensures var (t, end) := (CloseYear(s, p, currency).0, s.periods[p].end);
      && |t.journals| == |s.journals| + 2
      && var memo := t.journals[|t.journals| - 1];
         var (carried, moved) := (Sum(memo.lines, LineNetOn(a.id)), Movement(t.rows, a.id, AsOf(end)));
         && memo.kind == Opening && memo.status == Draft && memo.source == None && memo.currency == currency
         && memo.date == NextFiscalPeriod(end).start
         && carried == CarriedOf(t, a, end)
         && (carried == moved <==> moved == 0 || (if a.normal.Debit? then moved > 1 else moved < -1))
  {
    hide CloseYear, OpeningLines, NextFiscalPeriod, BalanceOf, Movement, ChartOk, YearOf, PeriodBalances, NetIncome, ClosingLines;
    CarriedTables(s, p, currency);
    ClosedJournals(s, p, currency);
    var (u, end) := (Closed(s, p, currency), s.periods[p].end);
    MemoNet(u, end, a);
    BalanceIsMovement(u.rows, a, AsOf(end));
    BalanceAccount(u.rows, a, AsOf(end));
  }

  /** It has no line of any other account, and none with both sides or a negative one. */
  lemma MemorandumAccounts(s: Books, p: nat, currency: string, l: Line)
    requires CloseYear(s, p, currency).1.Done?
    requires var t := CloseYear(s, p, currency).0; |t.journals| > 0 && l in t.journals[|t.journals| - 1].lines
    ensures OneSided(l.debit, l.credit)
    ensures exists a :: a in s.chart && a.id == l.account && a.Listed() && a.kind in {Asset, Liability, Equity}
  {
    hide CloseYear, NextFiscalPeriod, BalanceOf, Movement, YearOf, PeriodBalances, NetIncome, ClosingLines, OpeningLines;
    CarriedTables(s, p, currency);
    ClosedJournals(s, p, currency);
    OpeningLineAccounts(Closed(s, p, currency), s.periods[p].end, l);
  }

  lemma OpeningLineAccounts(u: Books, date: int, l: Line)
    requires l in OpeningLines(u, date)
    ensures OneSided(l.debit, l.credit)
    ensures exists a :: a in u.chart && a.id == l.account && a.Listed() && a.kind in {Asset, Liability, Equity}
  {
    hide BalanceOf;
    var balances := Aggregate(u.chart, u.rows, AsOf(date), PermanentKinds);
    var listed := Filter(u.chart, Reported(PermanentKinds));
    var shown := Filter(balances, Shown());
    var i :| 0 <= i < |shown| && OpeningLines(u, date)[i] == l;
    assert shown[i] in balances;
    var k :| 0 <= k < |balances| && balances[k] == shown[i];
    assert listed[k] in u.chart;
    BalanceAccount(u.rows, listed[k], AsOf(date));
  }

  /**
   The rest of what a completed close stores: the closing journal, posted unless there was
   nothing to close, the closed period with the next one after it, and the record of the
   close, which names the year, its period, both journals, and the net profit that the
   profit-and-loss report shows for the period.
   */
  ghost predicate Records(s: Books, t: Books, p: nat)
    requires p < |s.periods|
  {
    var period := s.periods[p];
    var next := NextFiscalPeriod(period.end);
    && |t.journals| == |s.journals| + 2 && t.journals[..|s.journals|] == s.journals
    && (var closing := t.journals[|s.journals|];
        closing.kind == Closing && closing.date == period.end && (closing.status.Posted? <==> closing.lines != []))
    && t.periods == s.periods[p := period.(closed := true)] + [Period(next.start, next.end, false)]
    && t.closings == s.closings
         + [YearClosing(YearOf(period.end), p, UnclosedEarnings(Aggregate(s.chart, s.rows, Span(period), AllKinds)),
                        |s.journals|, |s.journals| + 1)]
  }

  lemma CloseIsRecorded(s: Books, p: nat, currency: string)
    requires CloseYear(s, p, currency).1.Done?
    ensures p < |s.periods| && Records(s, CloseYear(s, p, currency).0, p)
  {
    hide CloseYear, OpeningLines, NextFiscalPeriod, YearOf, NetIncome, ClosingLines, PeriodBalances, Aggregate, UnclosedEarnings;
    CarriedTables(s, p, currency);
    ClosedJournals(s, p, currency);
    NetIncomeIsNetProfit(s, s.periods[p]);
    ProfitOfAllKinds(s, s.periods[p]);
  }

  /** Permanent accounts make no difference to the profit. */
  lemma ProfitOfAllKinds(s: Books, period: Period)
    ensures UnclosedEarnings(PeriodBalances(s, period)) == UnclosedEarnings(Aggregate(s.chart, s.rows, Span(period), AllKinds))
  {
    hide BalanceOf;
    var w := Span(period);
    AggregateSum(s.chart, s.rows, w, ProfitAndLossKinds, EarningsWeight());
    AggregateSum(s.chart, s.rows, w, AllKinds, EarningsWeight());
    var f, g := OnAccounts(s.rows, w, ProfitAndLossKinds, EarningsWeight()), OnAccounts(s.rows, w, AllKinds, EarningsWeight());
    forall a | a in s.chart ensures f(a) == g(a) { BalanceAccount(s.rows, a, w); }
    SumSame(s.chart, f, g);
  }

  /** A fiscal year is closed once: whatever runs afterwards, closing any period that ends in it is refused and changes nothing. */
  lemma YearClosesOnce(s: Books, p: nat, currency: string, steps: seq<Step>, q: nat, again: string)
    requires CloseYear(s, p, currency).1.Done?
    ensures var t := Run(CloseYear(s, p, currency).0, steps);
      p < |s.periods| && (q < |t.periods| && YearOf(t.periods[q].end) == YearOf(s.periods[p].end) ==>
        CloseYear(t, q, again) == (t, Refused(AlreadyClosed)))
  {
    hide Run, NextFiscalPeriod, YearOf, PostClosing, CarryForward, PeriodBalances, UnclosedEarnings;
    var closed := CloseYear(s, p, currency).0;
    var t := Run(closed, steps);
    CloseIsRecorded(s, p, currency);
    RunGrows(closed, steps);
    var record := closed.closings[|s.closings|];
    assert t.closings[|s.closings|] == record && record in t.closings;
  }
}
