/** A year close moves profit into retained earnings and leaves the balance sheet alone. */
module CloseEffect {
  import opened Wrappers
  import opened Sums
  import opened Money
  import opened Accounts
  import opened Ledger
  import opened Posting
  import opened FiscalCalendar
  import opened Reports
  import opened Books
  import opened BookInvariants
  import opened YearClose

  /** The balances every report as of a date starts from. */
  function BalancesAsOf(s: Books, date: int): seq<AccountBalance> {
    Aggregate(s.chart, s.rows, AsOf(date), AllKinds)
  }

  function ListedOf(kind: AccountType): Account -> bool { (a: Account) => a.Listed() && a.kind == kind }
  function ListedEquityOrProfit(): Account -> bool {
    (a: Account) => a.Listed() && (a.kind.Equity? || IsProfitAndLoss(a.kind))
  }

  function EquityAndEarnings(balances: seq<AccountBalance>): int {
    KindTotal(balances, Equity) + UnclosedEarnings(balances)
  }

  function EquityAndEarningsWeight(): AccountBalance -> int {
    (b: AccountBalance) => KindWeight(Equity)(b) + EarningsWeight()(b)
  }

  /** A kind's total is the net of the rows on its listed accounts, signed by the normal side. */
  lemma KindTotalIsNet(chart: seq<Account>, rows: seq<Row>, w: Window, kind: AccountType)
    requires ChartOk(chart)
    ensures var net := Sum(rows, PickedNet(chart, w, ListedOf(kind)));
      KindTotal(Aggregate(chart, rows, w, AllKinds), kind) == if InferNormalBalance(kind).Debit? then net else -net
  {
    hide BalanceOf, Movement;
    var h, g := OnAccounts(rows, w, AllKinds, KindWeight(kind)), PickedMovement(rows, w, ListedOf(kind));
    AggregateSum(chart, rows, w, AllKinds, KindWeight(kind));
    forall a | a in chart
      ensures h(a) == if InferNormalBalance(kind).Debit? then g(a) else -g(a)
    {
      BalanceAccount(rows, a, w);
      BalanceIsMovement(rows, a, w);
    }
    if InferNormalBalance(kind).Debit? { SumSame(chart, h, g); } else { SumOpposite(chart, h, g); }
    MovementsByAccount(chart, rows, w, ListedOf(kind));
  }

  lemma EquityAndEarningsIsNet(chart: seq<Account>, rows: seq<Row>, w: Window)
    requires ChartOk(chart)
    ensures EquityAndEarnings(Aggregate(chart, rows, w, AllKinds)) == -Sum(rows, PickedNet(chart, w, ListedEquityOrProfit()))
  {
    hide BalanceOf, Movement;
    var balances := Aggregate(chart, rows, w, AllKinds);
    SumAdd(balances, KindWeight(Equity), EarningsWeight(), EquityAndEarningsWeight());
    var h, g := OnAccounts(rows, w, AllKinds, EquityAndEarningsWeight()), PickedMovement(rows, w, ListedEquityOrProfit());
    AggregateSum(chart, rows, w, AllKinds, EquityAndEarningsWeight());
    forall a | a in chart ensures h(a) == -g(a) {
      BalanceAccount(rows, a, w);
      BalanceIsMovement(rows, a, w);
    }
    SumOpposite(chart, h, g);
    MovementsByAccount(chart, rows, w, ListedEquityOrProfit());
  }

  // ---- The rows a close adds ----

  function ClosingRows(s: Books, p: nat, currency: string): seq<Row>
    requires p < |s.periods| && FindRetained(s.chart).Some?
  {
    JournalRows(|s.journals|, ClosingDraft(s, s.periods[p], FindRetained(s.chart).value.id, currency))
  }

  lemma CarryKeepsRows(s: Books, p: nat, currency: string)
    requires CloseRefusal(s, p).None?
    ensures CloseYear(s, p, currency).0.chart == s.chart
    ensures CloseYear(s, p, currency).0.rows == PostClosing(s, s.periods[p], FindRetained(s.chart).value.id, currency).0.rows
  {
    hide PostClosing, OpeningLines, NextFiscalPeriod, PeriodBalances, NewDraft, PeriodExists;
    PostClosingRows(s, s.periods[p], FindRetained(s.chart).value.id, currency);
  }

  /** The close gets as far as posting its journal, or finds nothing to post. */
  predicate ClosesLedger(s: Books, p: nat, currency: string) {
    CloseRefusal(s, p).None? && !PostClosing(s, s.periods[p], FindRetained(s.chart).value.id, currency).1.Refused?
  }

  /** A close, completed or not, changes the ledger by all its closing rows or by none. */
  lemma CloseRows(s: Books, p: nat, currency: string)
    ensures CloseYear(s, p, currency).0.chart == s.chart
    ensures CloseYear(s, p, currency).0.rows == s.rows + if ClosesLedger(s, p, currency) then ClosingRows(s, p, currency) else []
  {
    hide PostClosing, JournalRows, ClosingDraft, CarryForward, PeriodBalances;
    assert s.rows + [] == s.rows;
    if CloseRefusal(s, p).None? {
      CarryKeepsRows(s, p, currency);
      PostClosingRows(s, s.periods[p], FindRetained(s.chart).value.id, currency);
    }
  }

  /** Each closing row is dated at the period's end, on an income or expense account or on retained earnings. */
  lemma ClosingRowAccounts(s: Books, p: nat, currency: string, r: Row)
    requires ChartOk(s.chart) && p < |s.periods| && FindRetained(s.chart).Some?
    requires r in ClosingRows(s, p, currency)
    ensures r.date == s.periods[p].end && Find(s.chart, r.account).Some?
    ensures var a := Find(s.chart, r.account).value;
      a == FindRetained(s.chart).value || (a.Listed() && IsProfitAndLoss(a.kind))
  {
    var retained := FindRetained(s.chart).value;
    var period := s.periods[p];
    var lines := ClosingDraft(s, period, retained.id, currency).lines;
    var i :| 0 <= i < |lines| && ClosingRows(s, p, currency)[i] == r;
    assert lines[i] in lines;
    FindMember(s.chart, retained);
    ClosingAccounts(PeriodBalances(s, period), retained.id, lines[i]);
    if lines[i].account != retained.id {
      var b :| b in PeriodBalances(s, period) && b.account.id == r.account;
      ReportedAccounts(s.chart, s.rows, Span(period), b);
    }
  }

  lemma ClosingRowsBalance(s: Books, p: nat, currency: string, w: Window)
    requires Inv(s) && ClosesLedger(s, p, currency)
    ensures Sum(ClosingRows(s, p, currency), RowNetIn(w)) == 0
  {
    hide PostClosing, Inv, PeriodBalances, NetIncome;
    var period, retained := s.periods[p], FindRetained(s.chart).value;
    var draft := ClosingDraft(s, period, retained.id, currency);
    ClosingPostsIff(s, period, retained, currency);
    ClosingBalancesIff(PeriodBalances(s, period), retained.id);
    JournalNet(|s.journals|, draft, w);
  }

  lemma JournalNet(id: nat, j: Journal, w: Window)
    ensures Sum(JournalRows(id, j), RowNetIn(w))
         == if Within(w, j.date) then Sum(j.lines, LineDebit()) - Sum(j.lines, LineCredit()) else 0
  {
    if Within(w, j.date) {
      SumMap(j.lines, JournalRow(id, j), RowNetIn(w), LineNet());
      SumAdd(j.lines, LineNet(), LineCredit(), LineDebit());
    } else {
      SumZero(JournalRows(id, j), RowNetIn(w));
    }
  }

  /**
   Closing a year leaves total assets and total liabilities as they were at
   every date.
   */
  lemma CloseKeepsAssetsAndLiabilities(s: Books, p: nat, currency: string, date: int)
    requires Inv(s)
    ensures var t := CloseYear(s, p, currency).0;
      && KindTotal(BalancesAsOf(t, date), Asset) == KindTotal(BalancesAsOf(s, date), Asset)
      && KindTotal(BalancesAsOf(t, date), Liability) == KindTotal(BalancesAsOf(s, date), Liability)
  {
    CloseKeepsKind(s, p, currency, date, Asset);
    CloseKeepsKind(s, p, currency, date, Liability);
  }

  lemma CloseKeepsKind(s: Books, p: nat, currency: string, date: int, kind: AccountType)
    requires Inv(s) && (kind.Asset? || kind.Liability?)
    ensures KindTotal(BalancesAsOf(CloseYear(s, p, currency).0, date), kind) == KindTotal(BalancesAsOf(s, date), kind)
  {
    hide CloseYear, PostClosing, ClosingRows, KindTotal, Aggregate;
    CloseRows(s, p, currency);
    assert s.rows + [] == s.rows;
    if ClosesLedger(s, p, currency) {
      var more := ClosingRows(s, p, currency);
      KindTotalIsNet(s.chart, s.rows, AsOf(date), kind);
      KindTotalIsNet(s.chart, s.rows + more, AsOf(date), kind);
      SumAppend(s.rows, more, PickedNet(s.chart, AsOf(date), ListedOf(kind)));
      ClosingMissesKind(s, p, currency, date, kind);
    }
  }

  lemma ClosingMissesKind(s: Books, p: nat, currency: string, date: int, kind: AccountType)
    requires Inv(s) && ClosesLedger(s, p, currency) && (kind.Asset? || kind.Liability?)
    ensures Sum(ClosingRows(s, p, currency), PickedNet(s.chart, AsOf(date), ListedOf(kind))) == 0
  {
    hide Inv, PostClosing, ClosingRows;
    InvChart(s);
    var f := PickedNet(s.chart, AsOf(date), ListedOf(kind));
    forall r | r in ClosingRows(s, p, currency) ensures f(r) == 0 {
      ClosingRowAccounts(s, p, currency, r);
    }
    SumZero(ClosingRows(s, p, currency), f);
  }

  /**
   Equity including unclosed earnings is the same at every date, before and
   after, when retained earnings is a listed account.
   */
  lemma CloseKeepsEquity(s: Books, p: nat, currency: string, date: int)
    requires Inv(s) && (FindRetained(s.chart).Some? ==> FindRetained(s.chart).value.Listed())
    ensures EquityAndEarnings(BalancesAsOf(CloseYear(s, p, currency).0, date)) == EquityAndEarnings(BalancesAsOf(s, date))
  {
    hide CloseYear, PostClosing, ClosingRows, EquityAndEarnings;
    CloseRows(s, p, currency);
    assert s.rows + [] == s.rows;
    if ClosesLedger(s, p, currency) {
      var more := ClosingRows(s, p, currency);
      var f := PickedNet(s.chart, AsOf(date), ListedEquityOrProfit());
      EquityAndEarningsIsNet(s.chart, s.rows, AsOf(date));
      EquityAndEarningsIsNet(s.chart, s.rows + more, AsOf(date));
      SumAppend(s.rows, more, f);
      forall r | r in more ensures f(r) == RowNetIn(AsOf(date))(r) {
        ClosingRowAccounts(s, p, currency, r);
      }
      SumSame(more, f, RowNetIn(AsOf(date)));
      ClosingRowsBalance(s, p, currency, AsOf(date));
    }
  }

  function PeriodProfit(s: Books, p: nat): int {
    if p < |s.periods| then NetIncome(PeriodBalances(s, s.periods[p])) else 0
  }

  /** The balance of the retained-earnings account grows by exactly the net income. */
  lemma CloseMovesProfit(s: Books, p: nat, currency: string, date: int, retained: string)
    requires p < |s.periods| && s.periods[p].end <= date
    requires FindRetained(s.chart).Some? && FindRetained(s.chart).value.id == retained
    requires Inv(s) && ClosesLedger(s, p, currency)
    ensures Movement(CloseYear(s, p, currency).0.rows, retained, AsOf(date))
      == Movement(s.rows, retained, AsOf(date)) - PeriodProfit(s, p)
  {
    hide PeriodBalances, NetIncome, PostClosing, CloseYear, ClosingLines;
    var period, account := s.periods[p], FindRetained(s.chart).value;
    var draft := ClosingDraft(s, period, retained, currency);
    PostClosingRows(s, period, retained, currency);
    CarryKeepsRows(s, p, currency);
    MovementAppend(s.rows, JournalRows(|s.journals|, draft), retained, AsOf(date));
    JournalMovement(|s.journals|, draft, retained, AsOf(date));
    ClosingPostsIff(s, period, account, currency);
    RetainedNet(s, period, account);
  }

  lemma RetainedNet(s: Books, period: Period, retained: Account)
    requires ChartOk(s.chart) && retained in s.chart && retained.kind.Equity?
    requires Abs(NetIncome(PeriodBalances(s, period))) != 1
    ensures Sum(ClosingLines(PeriodBalances(s, period), retained.id), LineNetOn(retained.id)) == -NetIncome(PeriodBalances(s, period))
  {
    hide PeriodBalances, NetIncome;
    var balances := PeriodBalances(s, period);
    var net := NetIncome(balances);
    SumAppend(AccountClosing(balances), RetainedLines(net, retained.id), LineNetOn(retained.id));
    var kept := Filter(balances, HasBalance());
    forall l | l in AccountClosing(balances) ensures LineNetOn(retained.id)(l) == 0 {
      var i :| 0 <= i < |kept| && AccountClosing(balances)[i] == l;
      assert kept[i] in balances;
      PeriodAccount(s, period, kept[i]);
      FindMember(s.chart, retained);
    }
    SumZero(AccountClosing(balances), LineNetOn(retained.id));
    RetainedLineNet(net, retained.id);
  }

  lemma PeriodAccount(s: Books, period: Period, b: AccountBalance)
    requires DistinctIds(s.chart) && b in PeriodBalances(s, period)
    ensures IsProfitAndLoss(b.account.kind) && Find(s.chart, b.account.id) == Some(b.account)
  {
    ReportedAccounts(s.chart, s.rows, Span(period), b);
  }

  lemma RetainedLineNet(net: int, retained: string)
    requires Abs(net) != 1
    ensures Sum(RetainedLines(net, retained), LineNetOn(retained)) == -net
  {
    if Abs(net) > 1 {
      var l := RetainedLines(net, retained)[0];
      assert RetainedLines(net, retained) == [] + [l];
      SumStep([], l, LineNetOn(retained));
    }
  }

  /** The net income a close records is the net profit the profit-and-loss report shows for the period. */
  lemma NetIncomeIsNetProfit(s: Books, period: Period)
    ensures NetIncome(PeriodBalances(s, period)) == UnclosedEarnings(PeriodBalances(s, period))
  {
    var balances := PeriodBalances(s, period);
    forall b | b in balances ensures IncomeWeight()(b) == EarningsWeight()(b) + ExpenseWeight()(b) {
      var listed := Filter(s.chart, Reported(ProfitAndLossKinds));
      var i :| 0 <= i < |listed| && b == BalanceOf(s.rows, listed[i], Span(period));
      assert listed[i] in listed;
      BalanceAccount(s.rows, listed[i], Span(period));
    }
    SumAdd(balances, EarningsWeight(), ExpenseWeight(), IncomeWeight());
  }

  /** A close that gets as far as the ledger moves a listed income or expense account, at the period's end, by the opposite of its movement in the period. */
  lemma CloseMovesAccount(s: Books, p: nat, currency: string, a: Account, w: Window)
    requires Inv(s) && ClosesLedger(s, p, currency) && a in s.chart && IsProfitAndLoss(a.kind) && a.Listed()
    ensures Movement(CloseYear(s, p, currency).0.rows, a.id, w)
      == Movement(s.rows, a.id, w) - if Within(w, s.periods[p].end) then Movement(s.rows, a.id, Span(s.periods[p])) else 0
  {
    hide CloseYear, PostClosing, Movement, ClosingLines, JournalRows;
    var period, retained := s.periods[p], FindRetained(s.chart).value;
    var draft := ClosingDraft(s, period, retained.id, currency);
    CloseRows(s, p, currency);
    InvChart(s);
    MovementAppend(s.rows, JournalRows(|s.journals|, draft), a.id, w);
    JournalMovement(|s.journals|, draft, a.id, w);
    ClosingUndoes(s.chart, s.rows, Span(period), retained, a);
  }

  predicate KeepsEquity(s: Books, t: Books, date: int) {
    EquityAndEarnings(BalancesAsOf(t, date)) == EquityAndEarnings(BalancesAsOf(s, date))
  }

  predicate RetainedListed(s: Books) {
    FindRetained(s.chart).Some? && FindRetained(s.chart).value.Listed()
  }

  /** A posted close leaves equity including earnings unchanged exactly when retained earnings is listed or nothing moved. */
  lemma CloseKeepsEquityIff(s: Books, p: nat, currency: string, date: int)
    requires p < |s.periods| && s.periods[p].end <= date
    requires Inv(s) && ClosesLedger(s, p, currency)
    ensures KeepsEquity(s, CloseYear(s, p, currency).0, date) <==> RetainedListed(s) || PeriodProfit(s, p) == 0
  {
    hide CloseYear, PostClosing, ClosingRows, EquityAndEarnings, NetIncome, PeriodBalances;
    var retained := FindRetained(s.chart).value;
    if retained.Listed() {
      CloseKeepsEquity(s, p, currency, date);
    } else {
      var w := AsOf(date);
      var more := ClosingRows(s, p, currency);
      CloseRows(s, p, currency);
      EquityAndEarningsIsNet(s.chart, s.rows, w);
      EquityAndEarningsIsNet(s.chart, s.rows + more, w);
      SumAppend(s.rows, more, PickedNet(s.chart, w, ListedEquityOrProfit()));
      HeaderTakesProfit(s, p, currency, date);
    }
  }

  lemma HeaderTakesProfit(s: Books, p: nat, currency: string, date: int)
    requires p < |s.periods| && s.periods[p].end <= date
    requires Inv(s) && ClosesLedger(s, p, currency) && !RetainedListed(s)
    ensures Sum(ClosingRows(s, p, currency), PickedNet(s.chart, AsOf(date), ListedEquityOrProfit())) == PeriodProfit(s, p)
  {
    hide CloseYear, PostClosing, ClosingRows, Inv;
    var retained, w := FindRetained(s.chart).value, AsOf(date);
    var more := ClosingRows(s, p, currency);
    var f := PickedNet(s.chart, w, ListedEquityOrProfit());
    InvChart(s);
    FindMember(s.chart, retained);
    forall r | r in more ensures RowNetIn(w)(r) == f(r) + RowNetOn(retained.id, w)(r) {
      ClosingRowAccounts(s, p, currency, r);
    }
    SumAdd(more, f, RowNetOn(retained.id, w), RowNetIn(w));
    ClosingRowsBalance(s, p, currency, w);
    CloseRows(s, p, currency);
    CloseMovesProfit(s, p, currency, date, retained.id);
    MovementAppend(s.rows, more, retained.id, w);
  }

  lemma InvChart(s: Books)
    requires Inv(s)
    ensures ChartOk(s.chart)
  {
  }

  // ---- The opening memorandum ----

  /** What the memorandum holds of one balance. */
  function MemoNetOn(account: string): AccountBalance -> int {
    (b: AccountBalance) =>
      var size: int := Abs(b.balance);
      if b.account.id != account || size <= 1 then 0 else if b.account.normal.Debit? then size else -size
  }

  lemma MemoNet(s: Books, date: int, a: Account)
    requires ChartOk(s.chart) && a in s.chart && a.Listed() && !IsProfitAndLoss(a.kind)
    ensures Sum(OpeningLines(s, date), LineNetOn(a.id)) == MemoNetOn(a.id)(BalanceOf(s.rows, a, AsOf(date)))
  {
    hide BalanceOf;
    var balances := Aggregate(s.chart, s.rows, AsOf(date), PermanentKinds);
    SumMap(Filter(balances, Shown()), ToOpeningLine(), LineNetOn(a.id), MemoNetOn(a.id));
    SumFilter(balances, Shown(), MemoNetOn(a.id));
    AggregateSum(s.chart, s.rows, AsOf(date), PermanentKinds, MemoNetOn(a.id));
    var h := OnAccounts(s.rows, AsOf(date), PermanentKinds, MemoNetOn(a.id));
    forall x | x in s.chart && x.id != a.id ensures h(x) == 0 { BalanceAccount(s.rows, x, AsOf(date)); }
    SumSingle(s.chart, a.id, h);
    FindMember(s.chart, a);
  }

  /**
   The memorandum carries an account's balance forward exactly when it is zero, or
   above one unit on the account's normal side: it writes every other balance, with
   its sign lost, on the normal side.
   */
  lemma MemoCarriesIff(s: Books, date: int, a: Account)
    requires ChartOk(s.chart) && a in s.chart && a.Listed() && !IsProfitAndLoss(a.kind)
    ensures var balance := BalanceOf(s.rows, a, AsOf(date)).balance;
      Sum(OpeningLines(s, date), LineNetOn(a.id)) == Movement(s.rows, a.id, AsOf(date)) <==> balance == 0 || balance > 1
  {
    hide OpeningLines, ChartOk, BalanceOf, Movement;
    MemoNet(s, date, a);
    BalanceIsMovement(s.rows, a, AsOf(date));
    BalanceAccount(s.rows, a, AsOf(date));
  }
}
