/** The books of a shop with a bank account, one sales account and retained earnings: cash sales, and when a year closes. */
module Shop {
  import opened Wrappers
  import opened Sums
  import opened Money
  import opened Accounts
  import opened Ledger
  import opened Posting
  import opened FiscalCalendar
  import opened Reports
  import opened Books
  import opened BookInvariants
  import opened YearClose
  import opened BookRuns

  const BANK := Account("bank", Asset, Debit, true, false, false, false)
  const RETAINED := Account("retained", Equity, Credit, true, false, false, true)

  function SalesAccount(header: bool): Account { Account("sales", Income, Credit, true, false, header, false) }

  function Chart(header: bool): seq<Account> { [BANK, SalesAccount(header), RETAINED] }

  /** A sale paid at once; one of a negative amount is a credit note paid back. */
  function Sale(id: string, date: int, amount: int): Document {
    Document("INVOICE", id, date, "SAR", 1.0,
             if amount > 0
             then [PostingLine("bank", amount, 0, None, None), PostingLine("sales", 0, amount, None, None)]
             else [PostingLine("bank", 0, -amount, None, None), PostingLine("sales", -amount, 0, None, None)])
  }

  lemma ChartIsOk(header: bool)
    ensures ChartOk(Chart(header)) && FindRetained(Chart(header)) == Some(RETAINED)
    ensures forall a :: a in Chart(header) ==> Find(Chart(header), a.id) == Some(a)
  {
    var chart := Chart(header);
    assert DistinctIds(chart);
    forall a | a in chart ensures Find(chart, a.id) == Some(a) { FindMember(chart, a); }
    assert chart[..2] == [BANK, SalesAccount(header)] && chart[..2][..1] == [BANK] && chart[..2][..1][..0] == [];
  }

  lemma SaleBalances(id: string, date: int, amount: int)
    requires amount != 0
    ensures ValidateBalanced(Plain(Sale(id, date, amount).lines)).None?
    ensures Group(Sale(id, date, amount).lines) == Sale(id, date, amount).lines
    ensures Sum(Sale(id, date, amount).lines, NetOn("sales")) == -amount
  {
    hide Group, Plain;
    var lines := Sale(id, date, amount).lines;
    PlainNet(lines);
    PlainDebit(lines);
    SumOfTwo(lines[0], lines[1], NetOf());
    SumOfTwo(lines[0], lines[1], DebitOf());
    SumOfTwo(lines[0], lines[1], NetOn("sales"));
    GroupOfTwo(lines);
  }

  lemma SaleAccounts(header: bool, id: string, date: int, amount: int, l: Line)
    requires l in Plain(Sale(id, date, amount).lines)
    ensures Usable(Chart(header), l.account)
  {
    hide Find;
    ChartIsOk(header);
    var plain := Plain(Sale(id, date, amount).lines);
    var i :| 0 <= i < |plain| && plain[i] == l;
    assert Chart(header)[i] in Chart(header) && Chart(header)[i].id == l.account;
  }

  lemma SaleContext(s: Books, header: bool, id: string, date: int, amount: int)
    requires s.chart == Chart(header) && amount != 0 && !ClosedOn(s.periods, date)
    ensures ValidateContext(s, date, Plain(Sale(id, date, amount).lines)).None?
  {
    hide ValidateBalanced, ClosedOn, Find, Plain;
    SaleBalances(id, date, amount);
    forall l | l in Plain(Sale(id, date, amount).lines) ensures Usable(s.chart, l.account) {
      SaleAccounts(header, id, date, amount, l);
    }
  }

  /** A new sale outside the closed periods always posts, and credits the sales account at its date. */
  lemma SalePosts(s: Books, header: bool, id: string, date: int, amount: int, w: Window)
    requires s.chart == Chart(header) && amount != 0 && !ClosedOn(s.periods, date)
    requires !HasOrigin(s.rows, FromDocument("INVOICE", id))
    ensures var (t, outcome) := PostDocument(s, Sale(id, date, amount));
      && outcome.Done? && t == s.(rows := s.rows + DocumentRows(Sale(id, date, amount)))
      && Movement(t.rows, "sales", w) == Movement(s.rows, "sales", w) - if Within(w, date) then amount else 0
  {
    hide ValidateContext, Plain, Group, Movement, HasOrigin, ClosedOn;
    var doc := Sale(id, date, amount);
    SaleContext(s, header, id, date, amount);
    SaleBalances(id, date, amount);
    var rows := DocumentRows(doc);
    assert |rows| == 2 && forall r :: r in rows ==> RowAllowed(r);
    FirstPostingAppends(s, doc);
    MovementAppend(s.rows, rows, "sales", w);
    DocumentMovement(doc, "sales", w);
  }

  /** The only balance of income, cost and expense is that of the sales account. */
  lemma OnlySales(rows: seq<Row>, w: Window)
    ensures Aggregate(Chart(false), rows, w, ProfitAndLossKinds) == [BalanceOf(rows, SalesAccount(false), w)]
  {
    hide BalanceOf, Filter, Map;
    var (sales, p) := (SalesAccount(false), Reported(ProfitAndLossKinds));
    assert Chart(false) == [BANK, sales] + [RETAINED] && [BANK, sales] == [BANK] + [sales] && [BANK] == [] + [BANK];
    FilterStep([BANK, sales], RETAINED, p);
    FilterStep([BANK], sales, p);
    FilterStep([], BANK, p);
    FilterNone([], p);
    assert Filter(Chart(false), p) == [sales];
  }

  /** So a year that can be closed at all closes exactly when its sales are not on the wrong side, nor one unit. */
  lemma ClosesIff(s: Books, p: nat, sales: int)
    requires Inv(s) && s.chart == Chart(false) && CloseRefusal(s, p).None?
    requires Movement(s.rows, "sales", Span(s.periods[p])) == -sales
    requires var next := NextFiscalPeriod(s.periods[p].end); !PeriodExists(s.periods, next.start, next.end)
    ensures CloseYear(s, p, "SAR").1.Done? <==> sales >= 0 && sales != 1
  {
    hide CloseYear, Inv, Movement, NextFiscalPeriod, CloseRefusal, PeriodExists;
    var w := Span(s.periods[p]);
    OnlySales(s.rows, w);
    var b := BalanceOf(s.rows, SalesAccount(false), w);
    BalanceIsMovement(s.rows, SalesAccount(false), w);
    BalanceAccount(s.rows, SalesAccount(false), w);
    SumOfOne(b, IncomeWeight());
    SumOfOne(b, ExpenseWeight());
    assert PeriodBalances(s, s.periods[p]) == [b];
    CloseCompletesIff(s, p, "SAR");
  }

  // ---- One open year with one sale in it ----

  const YEAR := Period(0, 1_000, false)

  function OneYear(header: bool): Books { Books(Chart(header), [], [], [YEAR], []) }

  function AfterSale(header: bool, amount: int): Books { PostDocument(OneYear(header), Sale("sale", 500, amount)).0 }

  lemma OneYearOk(header: bool)
    ensures Inv(OneYear(header))
  {
    ChartIsOk(header);
  }

  /** Nothing stands in the way of closing the year: no successor and no earlier close. */
  lemma OneYearClosable(s: Books, header: bool)
    requires s.chart == Chart(header) && s.periods == [YEAR] && s.closings == []
    ensures CloseRefusal(s, 0).None?
    ensures var next := NextFiscalPeriod(YEAR.end); !PeriodExists(s.periods, next.start, next.end)
  {
    hide YearOf, MonthOf, DateOf, Utc;
    ChartIsOk(header);
  }

  lemma SaleMade(header: bool, amount: int)
    requires amount != 0
    ensures var s := AfterSale(header, amount);
      && Inv(s) && s == OneYear(header).(rows := s.rows) && Movement(s.rows, "sales", Span(YEAR)) == -amount
  {
    hide Inv, PostDocument, Movement, Find, FindRetained;
    OneYearOk(header);
    SalePosts(OneYear(header), header, "sale", 500, amount, Span(YEAR));
    NothingBefore(Span(YEAR));
    DocumentKeeps(OneYear(header), Sale("sale", 500, amount));
  }

  lemma NothingBefore(w: Window)
    ensures Movement([], "sales", w) == 0
  {
  }

  /**
   The failing inputs of a close: a year with one sale closes exactly when that is at least
   two units. One unit, or a credit note of any amount, leaves it open, with no new row.
   */
  lemma SaleClosesIff(amount: int)
    requires amount != 0
    ensures var s := AfterSale(false, amount);
      var (t, outcome) := CloseYear(s, 0, "SAR");
      && (outcome.Done? <==> amount >= 2)
      && (amount == 1 || amount < 0 ==> outcome.Refused? && t.rows == s.rows && t.periods == s.periods)
  {
    hide CloseYear, Inv, PostDocument, Movement, NextFiscalPeriod, CloseRefusal, PeriodExists;
    var s := AfterSale(false, amount);
    SaleMade(false, amount);
    OneYearClosable(s, false);
    ClosesIff(s, 0, amount);
    if !CloseYear(s, 0, "SAR").1.Done? { StaysOpen(s, 0, "SAR"); }
  }

  /** A close that is not done with no successor period in its way has changed no row and no period. */
  lemma StaysOpen(s: Books, p: nat, currency: string)
    requires CloseRefusal(s, p).None? && !CloseYear(s, p, currency).1.Done?
    requires var next := NextFiscalPeriod(s.periods[p].end); !PeriodExists(s.periods, next.start, next.end)
    ensures var (t, outcome) := CloseYear(s, p, currency);
      outcome.Refused? && t.rows == s.rows && t.periods == s.periods
  {
    hide PostClosing, PeriodBalances, NextFiscalPeriod, CloseRefusal, PeriodExists, OpeningLines, ClosingLines;
    var period, retained := s.periods[p], FindRetained(s.chart).value.id;
    PostClosingRows(s, period, retained, currency);
    PostClosingDone(s, period, retained, currency);
  }
}
