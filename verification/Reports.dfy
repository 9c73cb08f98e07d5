/** Trial balance, balance sheet and profit-and-loss, and the accounting identity they rest on. */
module Reports {
  import opened Wrappers
  import opened Sums
  import opened Money
  import opened Accounts
  import opened Ledger

  // ---- Unclosed earnings ----

  function EarningsWeight(): AccountBalance -> int {
    (b: AccountBalance) =>
      match b.account.kind
      case Income => b.balance
      case CostOfGoodsSold => -b.balance
      case Expense => -b.balance
      case _ => 0
  }

  function UnclosedEarnings(balances: seq<AccountBalance>): int { Sum(balances, EarningsWeight()) }

  method ComputeUnclosedEarnings(balances: seq<AccountBalance>) returns (earnings: int)
    ensures earnings == UnclosedEarnings(balances)
  {
    var income, cogs, expense := 0, 0, 0;
    for i := 0 to |balances|
      invariant income - cogs - expense == Sum(balances[..i], EarningsWeight())
    {
      SumPrefixStep(balances, i, EarningsWeight());
      var b := balances[i];
      if b.account.kind.Income? { income := income + b.balance; }
      else if b.account.kind.CostOfGoodsSold? { cogs := cogs + b.balance; }
      else if b.account.kind.Expense? { expense := expense + b.balance; }
    }
    assert balances[..|balances|] == balances;
    earnings := income - cogs - expense;
  }

  // ---- Balance sheet ----

  datatype SheetLine = SheetLine(id: string, balance: int)
  datatype BalanceSheet = BalanceSheet(
    assets: seq<SheetLine>, liabilities: seq<SheetLine>, equity: seq<SheetLine>,
    totalAssets: int, totalLiabilities: int, totalEquity: int, isBalanced: bool)

  const CURRENT_EARNINGS_ID := "current-period-earnings"

  function ShownBalance(): SheetLine -> int { (l: SheetLine) => l.balance }

  function Total(lines: seq<SheetLine>): int { Sum(lines, ShownBalance()) }

  /** Balances of at most one ten-thousandth are not shown. */
  function ShownAs(kind: AccountType): AccountBalance -> bool {
    (b: AccountBalance) => b.account.kind == kind && Abs(b.balance) > 1
  }

  function ToSheetLine(): AccountBalance -> SheetLine { (b: AccountBalance) => SheetLine(b.account.id, b.balance) }

  function Section(balances: seq<AccountBalance>, kind: AccountType): seq<SheetLine> {
    Map(Filter(balances, ShownAs(kind)), ToSheetLine())
  }

  function EarningsLines(earnings: int): seq<SheetLine> {
    if Abs(earnings) > 1 then [SheetLine(CURRENT_EARNINGS_ID, earnings)] else []
  }

  function BalanceSheetOf(balances: seq<AccountBalance>): BalanceSheet {
    var assets := Section(balances, Asset);
    var liabilities := Section(balances, Liability);
    var equity := Section(balances, Equity) + EarningsLines(UnclosedEarnings(balances));
    var (a, l, e) := (Total(assets), Total(liabilities), Total(equity));
    BalanceSheet(assets, liabilities, equity, a, l, e, Abs(a - (l + e)) < CENT)
  }

  lemma SectionStep(balances: seq<AccountBalance>, i: nat, kind: AccountType)
    requires i < |balances|
    ensures Section(balances[..i + 1], kind) == Section(balances[..i], kind)
      + if ShownAs(kind)(balances[i]) then [ToSheetLine()(balances[i])] else []
  {
    var p := ShownAs(kind);
    assert balances[..i + 1][..i] == balances[..i];
    var kept := Filter(balances[..i], p);
    if p(balances[i]) {
      assert (kept + [balances[i]])[..|kept|] == kept;
    }
  }

  lemma EmptySections()
    ensures forall kind :: Section([], kind) == []
  {
  }

  method BuildBalanceSheet(balances: seq<AccountBalance>) returns (sheet: BalanceSheet)
    ensures sheet == BalanceSheetOf(balances)
  {
    hide Section, UnclosedEarnings, Total;
    EmptySections();
    var earnings := ComputeUnclosedEarnings(balances);
    var assets, liabilities, equity := [], [], [];
    for i := 0 to |balances|
      invariant assets == Section(balances[..i], Asset)
      invariant liabilities == Section(balances[..i], Liability)
      invariant equity == Section(balances[..i], Equity)
    {
      SectionStep(balances, i, Asset);
      SectionStep(balances, i, Liability);
      SectionStep(balances, i, Equity);
      var b := balances[i];
      if Abs(b.balance) > 1 {
        match b.account.kind {
          case Asset => assets := assets + [SheetLine(b.account.id, b.balance)];
          case Liability => liabilities := liabilities + [SheetLine(b.account.id, b.balance)];
          case Equity => equity := equity + [SheetLine(b.account.id, b.balance)];
          case _ =>
        }
      }
    }
    assert balances[..|balances|] == balances;
    if Abs(earnings) > 1 {
      equity := equity + [SheetLine(CURRENT_EARNINGS_ID, earnings)];
    }
    assert equity == Section(balances, Equity) + EarningsLines(UnclosedEarnings(balances));
    var a, l, e := Total(assets), Total(liabilities), Total(equity);
    sheet := BalanceSheet(assets, liabilities, equity, a, l, e, Abs(a - (l + e)) < CENT);
  }

  // ---- Profit and loss ----

  datatype ProfitLoss = ProfitLoss(revenue: int, cogs: int, expenses: int, netProfit: int)

  method BuildProfitLoss(balances: seq<AccountBalance>) returns (r: ProfitLoss)
    ensures r.revenue == KindTotal(balances, Income)
    ensures r.cogs == KindTotal(balances, CostOfGoodsSold) && r.expenses == KindTotal(balances, Expense)
    ensures r.netProfit == UnclosedEarnings(balances)
  {
    var revenue, cogs, expenses := 0, 0, 0;
    for i := 0 to |balances|
      invariant revenue == KindTotal(balances[..i], Income)
      invariant cogs == KindTotal(balances[..i], CostOfGoodsSold)
      invariant expenses == KindTotal(balances[..i], Expense)
      invariant revenue - cogs - expenses == UnclosedEarnings(balances[..i])
    {
      SumPrefixStep(balances, i, KindWeight(Income));
      SumPrefixStep(balances, i, KindWeight(CostOfGoodsSold));
      SumPrefixStep(balances, i, KindWeight(Expense));
      SumPrefixStep(balances, i, EarningsWeight());
      var b := balances[i];
      if b.account.kind.Income? { revenue := revenue + b.balance; }
      else if b.account.kind.CostOfGoodsSold? { cogs := cogs + b.balance; }
      else if b.account.kind.Expense? { expenses := expenses + b.balance; }
    }
    assert balances[..|balances|] == balances;
    var grossProfit := revenue - cogs;
    r := ProfitLoss(revenue, cogs, expenses, grossProfit - expenses);
  }

  function KindWeight(kind: AccountType): AccountBalance -> int {
    (b: AccountBalance) => if b.account.kind == kind then b.balance else 0
  }

  function KindTotal(balances: seq<AccountBalance>, kind: AccountType): int { Sum(balances, KindWeight(kind)) }

  // ---- Trial balance ----

  datatype TrialBalance = TrialBalance(rows: seq<AccountBalance>, totalDebit: int, totalCredit: int, isBalanced: bool)

  function Active(): AccountBalance -> bool {
    (b: AccountBalance) => b.debit > 0 || b.credit > 0 || Abs(b.balance) > 1
  }
  function DebitWeight(): AccountBalance -> int { (b: AccountBalance) => b.debit }
  function CreditWeight(): AccountBalance -> int { (b: AccountBalance) => b.credit }

  function TrialBalanceOf(balances: seq<AccountBalance>): TrialBalance {
    var rows := Filter(balances, Active());
    var debit, credit := Sum(rows, DebitWeight()), Sum(rows, CreditWeight());
    TrialBalance(rows, debit, credit, Abs(debit - credit) < CENT)
  }

  // ---- Sums over accounts are sums over rows ----

  /** A weight on balances, as a weight on accounts. */
  function OnAccounts(rows: seq<Row>, w: Window, kinds: Kinds, f: AccountBalance -> int): Account -> int {
    (a: Account) => if Reported(kinds)(a) then f(BalanceOf(rows, a, w)) else 0
  }

  lemma AggregateSum(chart: seq<Account>, rows: seq<Row>, w: Window, kinds: Kinds, f: AccountBalance -> int)
    ensures Sum(Aggregate(chart, rows, w, kinds), f) == Sum(chart, OnAccounts(rows, w, kinds, f))
  {
    hide BalanceOf;
    var g := OnAccounts(rows, w, kinds, f);
    var listed := Filter(chart, Reported(kinds));
    SumMap(listed, BalanceIn(rows, w), f, g);
    SumFilter(chart, Reported(kinds), g);
  }

  function PickedMovement(rows: seq<Row>, w: Window, pick: Account -> bool): Account -> int {
    (a: Account) => if pick(a) then Movement(rows, a.id, w) else 0
  }

  function PickedNet(chart: seq<Account>, w: Window, pick: Account -> bool): Row -> int {
    (r: Row) =>
      if Within(w, r.date) && Find(chart, r.account).Some? && pick(Find(chart, r.account).value)
      then r.debit - r.credit else 0
  }

  /** In a chart with distinct ids, a weight that only one account carries. */
  lemma {:induction false} SumSingle(chart: seq<Account>, id: string, h: Account -> int)
    requires DistinctIds(chart)
    requires forall a :: a in chart && a.id != id ==> h(a) == 0
    ensures Sum(chart, h) == if Find(chart, id).Some? then h(Find(chart, id).value) else 0
  {
    if chart != [] {
      var init, last := chart[..|chart| - 1], chart[|chart| - 1];
      SumSingle(init, id, h);
      if last.id == id {
        assert forall a :: a in init ==> a.id != id;
      }
    }
  }

  lemma {:induction false} MovementsByAccount(chart: seq<Account>, rows: seq<Row>, w: Window, pick: Account -> bool)
    requires DistinctIds(chart)
    ensures Sum(chart, PickedMovement(rows, w, pick)) == Sum(rows, PickedNet(chart, w, pick))
  {
    if rows == [] {
      SumZero(chart, PickedMovement(rows, w, pick));
    } else {
      var init, last := rows[..|rows| - 1], rows[|rows| - 1];
      MovementsByAccount(chart, init, w, pick);
      var one := PickedRow(last, w, pick);
      SumAdd(chart, PickedMovement(init, w, pick), one, PickedMovement(rows, w, pick));
      SumSingle(chart, last.account, one);
    }
  }

  function PickedRow(r: Row, w: Window, pick: Account -> bool): Account -> int {
    (a: Account) => if pick(a) then RowNetOn(a.id, w)(r) else 0
  }

  // ---- The accounting identity ----

  ghost predicate ChartOk(chart: seq<Account>) {
    DistinctIds(chart) && forall a :: a in chart ==> Classified(a)
  }

  function SheetWeight(): AccountBalance -> int {
    (b: AccountBalance) =>
      match b.account.kind
      case Asset => b.balance
      case Liability => -b.balance
      case Equity => -b.balance
      case Income => -b.balance
      case CostOfGoodsSold => b.balance
      case Expense => b.balance
  }

  /** Assets less liabilities, equity and unclosed earnings, before any line is dropped. */
  function SheetDifference(balances: seq<AccountBalance>): int {
    KindTotal(balances, Asset) - KindTotal(balances, Liability) - KindTotal(balances, Equity) - UnclosedEarnings(balances)
  }

  lemma {:induction false} SheetDifferenceIsSum(balances: seq<AccountBalance>)
    ensures SheetDifference(balances) == Sum(balances, SheetWeight())
  {
    if balances != [] {
      SheetDifferenceIsSum(balances[..|balances| - 1]);
    }
  }

  function ListedAccount(): Account -> bool { (a: Account) => a.Listed() }

  /**
   Whatever has been posted, the sheet is out by exactly the net of the rows on
   listed accounts.
   */
  lemma SheetDifferenceIsNet(chart: seq<Account>, rows: seq<Row>, w: Window)
    requires ChartOk(chart)
    ensures SheetDifference(Aggregate(chart, rows, w, AllKinds)) == Sum(rows, PickedNet(chart, w, ListedAccount()))
  {
    hide BalanceOf, SheetDifference;
    SheetDifferenceIsSum(Aggregate(chart, rows, w, AllKinds));
    AggregateSum(chart, rows, w, AllKinds, SheetWeight());
    forall a | a in chart
      ensures OnAccounts(rows, w, AllKinds, SheetWeight())(a) == PickedMovement(rows, w, ListedAccount())(a)
    {
      SheetWeightOf(rows, a, w);
    }
    SumSame(chart, OnAccounts(rows, w, AllKinds, SheetWeight()), PickedMovement(rows, w, ListedAccount()));
    MovementsByAccount(chart, rows, w, ListedAccount());
  }

  lemma SheetWeightOf(rows: seq<Row>, a: Account, w: Window)
    requires Classified(a)
    ensures SheetWeight()(BalanceOf(rows, a, w)) == Movement(rows, a.id, w)
  {
    BalanceIsMovement(rows, a, w);
  }

  ghost predicate AllListed(chart: seq<Account>, rows: seq<Row>) {
    forall r :: r in rows ==> Find(chart, r.account).Some? && Find(chart, r.account).value.Listed()
  }

  /** When every row is on a listed account: assets = liabilities + equity + earnings iff the ledger balances. */
  lemma AccountingIdentity(chart: seq<Account>, rows: seq<Row>, w: Window)
    requires ChartOk(chart) && AllListed(chart, rows)
    ensures SheetDifference(Aggregate(chart, rows, w, AllKinds)) == Net(rows, w)
  {
    SheetDifferenceIsNet(chart, rows, w);
    SumSame(rows, PickedNet(chart, w, ListedAccount()), RowNetIn(w));
  }

  // ---- Dropped lines ----

  function DroppedAs(kind: AccountType): AccountBalance -> bool {
    (b: AccountBalance) => b.account.kind == kind && b.balance != 0 && Abs(b.balance) <= 1
  }

  function Dropped(balances: seq<AccountBalance>, kind: AccountType): nat {
    |Filter(balances, DroppedAs(kind))|
  }

  /** The number of non-zero lines the sheet leaves out, the earnings line included. */
  function DroppedLines(balances: seq<AccountBalance>): nat {
    Dropped(balances, Asset) + Dropped(balances, Liability) + Dropped(balances, Equity)
    + if Abs(UnclosedEarnings(balances)) == 1 then 1 else 0
  }

  lemma SectionTotalStep(balances: seq<AccountBalance>, i: nat, kind: AccountType)
    requires i < |balances|
    ensures Total(Section(balances[..i + 1], kind))
         == Total(Section(balances[..i], kind)) + if ShownAs(kind)(balances[i]) then balances[i].balance else 0
  {
    hide Section;
    SectionStep(balances, i, kind);
    var before := Section(balances[..i], kind);
    assert before + [] == before;
    SumStep(before, ToSheetLine()(balances[i]), ShownBalance());
  }

  lemma DroppedStep(balances: seq<AccountBalance>, i: nat, kind: AccountType)
    requires i < |balances|
    ensures Dropped(balances[..i + 1], kind)
         == Dropped(balances[..i], kind) + if DroppedAs(kind)(balances[i]) then 1 else 0
  {
    assert balances[..i + 1][..i] == balances[..i];
  }

  lemma {:induction false} SectionTotal(balances: seq<AccountBalance>, kind: AccountType)
    ensures Abs(Total(Section(balances, kind)) - KindTotal(balances, kind)) <= Dropped(balances, kind)
  {
    hide Section, Dropped, Total;
    if balances == [] {
      EmptySections();
      assert Total([]) == 0 by { EmptyTotal(); }
    } else {
      var i := |balances| - 1;
      assert balances[..i + 1] == balances;
      SectionTotal(balances[..i], kind);
      SectionTotalStep(balances, i, kind);
      DroppedStep(balances, i, kind);
      SumPrefixStep(balances, i, KindWeight(kind));
    }
  }

  lemma EmptyTotal()
    ensures Total([]) == 0
  {
  }

  /**
   The reported sheet is out by what the ledger is out by, to within one unit
   for each line left out, and exactly when none is.
   */
  lemma ReportedSheet(chart: seq<Account>, rows: seq<Row>, w: Window)
    requires ChartOk(chart) && AllListed(chart, rows)
    ensures var balances := Aggregate(chart, rows, w, AllKinds);
      var sheet := BalanceSheetOf(balances);
      Abs(sheet.totalAssets - (sheet.totalLiabilities + sheet.totalEquity) - Net(rows, w)) <= DroppedLines(balances)
  {
    hide Section;
    var balances := Aggregate(chart, rows, w, AllKinds);
    AccountingIdentity(chart, rows, w);
    SectionTotal(balances, Asset);
    SectionTotal(balances, Liability);
    SectionTotal(balances, Equity);
    var e := UnclosedEarnings(balances);
    SumAppend(Section(balances, Equity), EarningsLines(e), ShownBalance());
    EarningsTotal(e);
  }

  lemma EarningsTotal(e: int)
    ensures Total(EarningsLines(e)) == if Abs(e) > 1 then e else 0
  {
    assert [SheetLine(CURRENT_EARNINGS_ID, e)] == [] + [SheetLine(CURRENT_EARNINGS_ID, e)];
    SumStep([], SheetLine(CURRENT_EARNINGS_ID, e), ShownBalance());
  }

  ghost predicate NonNegativeRows(rows: seq<Row>) {
    forall r :: r in rows ==> r.debit >= 0 && r.credit >= 0
  }

  /** The trial balance shows every account that moved, and is out by exactly the net of the rows on listed accounts. */
  lemma TrialBalanceIsNet(chart: seq<Account>, rows: seq<Row>, w: Window)
    requires DistinctIds(chart) && NonNegativeRows(rows)
    ensures var t := TrialBalanceOf(Aggregate(chart, rows, w, AllKinds));
      t.totalDebit - t.totalCredit == Sum(rows, PickedNet(chart, w, ListedAccount()))
  {
    hide BalanceOf;
    var balances := Aggregate(chart, rows, w, AllKinds);
    forall b | b in balances && !Active()(b)
      ensures b.debit == 0 && b.credit == 0
    {
      var a :| a in chart && b == BalanceOf(rows, a, w);
      BalanceNonNegative(rows, a, w);
    }
    SumFilter(balances, Active(), DebitWeight());
    SumFilter(balances, Active(), CreditWeight());
    SumAdd(balances, NetWeight(), CreditWeight(), DebitWeight());
    AggregateSum(chart, rows, w, AllKinds, NetWeight());
    forall a | a in chart
      ensures OnAccounts(rows, w, AllKinds, NetWeight())(a) == PickedMovement(rows, w, ListedAccount())(a)
    {
      BalanceNet(rows, a, w);
    }
    SumSame(chart, OnAccounts(rows, w, AllKinds, NetWeight()), PickedMovement(rows, w, ListedAccount()));
    MovementsByAccount(chart, rows, w, ListedAccount());
  }

  /** When every row is on a listed account, that is the ledger's net. */
  lemma TrialBalanceDifference(chart: seq<Account>, rows: seq<Row>, w: Window)
    requires DistinctIds(chart) && AllListed(chart, rows) && NonNegativeRows(rows)
    ensures var t := TrialBalanceOf(Aggregate(chart, rows, w, AllKinds));
      t.totalDebit - t.totalCredit == Net(rows, w) && (t.isBalanced <==> Abs(Net(rows, w)) < CENT)
  {
    hide Aggregate;
    TrialBalanceIsNet(chart, rows, w);
    SumSame(rows, PickedNet(chart, w, ListedAccount()), RowNetIn(w));
  }

  function NetWeight(): AccountBalance -> int { (b: AccountBalance) => b.debit - b.credit }

  lemma BalanceNet(rows: seq<Row>, a: Account, w: Window)
    ensures NetWeight()(BalanceOf(rows, a, w)) == Movement(rows, a.id, w)
  {
    MovementIsDebitLessCredit(rows, a.id, w);
  }

  lemma BalanceNonNegative(rows: seq<Row>, a: Account, w: Window)
    requires NonNegativeRows(rows)
    ensures BalanceOf(rows, a, w).debit >= 0 && BalanceOf(rows, a, w).credit >= 0
  {
    SumNonNegative(rows, RowDebitOn(a.id, w));
    SumNonNegative(rows, RowCreditOn(a.id, w));
  }

  // ---- Each section by itself ----

  /** A section holds a kind: each of its accounts with a balance above one unit is there once, with its balance, and nothing else. */
  ghost predicate Holds(section: seq<SheetLine>, balances: seq<AccountBalance>, kind: AccountType) {
    && (forall l :: l in section <==>
          exists b :: b in balances && b.account.kind == kind && Abs(b.balance) > 1 && l == SheetLine(b.account.id, b.balance))
    && forall i, j :: 0 <= i < j < |section| ==> section[i].id != section[j].id
  }

  function AccountIdOf(): AccountBalance -> string { (b: AccountBalance) => b.account.id }

  lemma SectionHolds(balances: seq<AccountBalance>, kind: AccountType)
    requires Apart(balances, AccountIdOf())
    ensures Holds(Section(balances, kind), balances, kind)
  {
    var kept := Filter(balances, ShownAs(kind));
    var section := Section(balances, kind);
    FilterApart(balances, ShownAs(kind), AccountIdOf());
    forall i, j | 0 <= i < j < |section| ensures section[i].id != section[j].id {
      assert AccountIdOf()(kept[i]) != AccountIdOf()(kept[j]);
    }
    forall l | l in section
      ensures exists b :: b in balances && b.account.kind == kind && Abs(b.balance) > 1 && l == SheetLine(b.account.id, b.balance)
    {
      var i :| 0 <= i < |section| && section[i] == l;
      assert kept[i] in balances && ShownAs(kind)(kept[i]);
    }
    forall b | b in balances && b.account.kind == kind && Abs(b.balance) > 1
      ensures SheetLine(b.account.id, b.balance) in section
    {
      assert b in kept;
      var i :| 0 <= i < |kept| && kept[i] == b;
      assert section[i] == SheetLine(b.account.id, b.balance);
    }
  }

  /**
   The sheet section by section. Assets and liabilities hold their accounts, equity holds its
   own and then the unclosed earnings where these exceed a unit; each total alone is that of
   its kind, equity's with the earnings, to within a unit a line left out; and the sheet is
   shown as balanced exactly when the totals agree to within a hundredth.
   */
  lemma SheetBySection(balances: seq<AccountBalance>)
    requires Apart(balances, AccountIdOf())
    ensures var (sheet, earnings) := (BalanceSheetOf(balances), UnclosedEarnings(balances));
      && Holds(sheet.assets, balances, Asset) && Holds(sheet.liabilities, balances, Liability)
      && (Abs(earnings) <= 1 ==> Holds(sheet.equity, balances, Equity))
      && (Abs(earnings) > 1 ==>
            && |sheet.equity| > 0 && sheet.equity[|sheet.equity| - 1] == SheetLine(CURRENT_EARNINGS_ID, earnings)
            && Holds(sheet.equity[..|sheet.equity| - 1], balances, Equity))
    ensures var sheet := BalanceSheetOf(balances);
      && Abs(sheet.totalAssets - KindTotal(balances, Asset)) <= Dropped(balances, Asset)
      && Abs(sheet.totalLiabilities - KindTotal(balances, Liability)) <= Dropped(balances, Liability)
      && Abs(sheet.totalEquity - (KindTotal(balances, Equity) + UnclosedEarnings(balances)))
         <= Dropped(balances, Equity) + (if Abs(UnclosedEarnings(balances)) == 1 then 1 else 0)
      && (sheet.isBalanced <==> Abs(sheet.totalAssets - sheet.totalLiabilities - sheet.totalEquity) < 100)
  {
    hide Section, Dropped, Holds, KindTotal, UnclosedEarnings, Sum;
    SectionHolds(balances, Asset);
    SectionHolds(balances, Liability);
    SectionHolds(balances, Equity);
    SectionTotal(balances, Asset);
    SectionTotal(balances, Liability);
    SectionTotal(balances, Equity);
    var e := UnclosedEarnings(balances);
    SumAppend(Section(balances, Equity), EarningsLines(e), ShownBalance());
    EarningsTotal(e);
    assert Section(balances, Equity) + [] == Section(balances, Equity);
    assert (Section(balances, Equity) + [SheetLine(CURRENT_EARNINGS_ID, e)])[..|Section(balances, Equity)|] == Section(balances, Equity);
  }

  /** The balances of a chart have one for each account, so the sheet of a chart is as above. */
  lemma AggregateApart(chart: seq<Account>, rows: seq<Row>, w: Window, kinds: Kinds)
    requires DistinctIds(chart)
    ensures Apart(Aggregate(chart, rows, w, kinds), AccountIdOf())
  {
    hide BalanceOf;
    assert Apart(chart, ChartId());
    FilterApart(chart, Reported(kinds), ChartId());
    var (listed, balances) := (Filter(chart, Reported(kinds)), Aggregate(chart, rows, w, kinds));
    forall i, j | 0 <= i < j < |balances| ensures AccountIdOf()(balances[i]) != AccountIdOf()(balances[j]) {
      BalanceAccount(rows, listed[i], w);
      BalanceAccount(rows, listed[j], w);
      assert ChartId()(listed[i]) != ChartId()(listed[j]);
    }
  }

  function ChartId(): Account -> string { (a: Account) => a.id }

  lemma BalanceAccount(rows: seq<Row>, a: Account, w: Window)
    ensures BalanceOf(rows, a, w).account == a
  {
  }

  /**
   The trial balance shows the balances with a debit, a credit or more than one unit of
   balance. Its debits and its credits are, each by itself, those of the rows on listed accounts.
   */
  lemma TrialBalanceTotals(chart: seq<Account>, rows: seq<Row>, w: Window)
    requires DistinctIds(chart) && NonNegativeRows(rows)
    ensures var t := TrialBalanceOf(Aggregate(chart, rows, w, AllKinds));
      && t.totalDebit == Sum(rows, ListedDebit(chart, w)) && t.totalCredit == Sum(rows, ListedCredit(chart, w))
      && forall b :: b in t.rows <==>
           b in Aggregate(chart, rows, w, AllKinds) && (b.debit > 0 || b.credit > 0 || b.balance > 1 || b.balance < -1)
  {
    hide BalanceOf;
    var balances := Aggregate(chart, rows, w, AllKinds);
    forall b | b in balances && !Active()(b) ensures b.debit == 0 && b.credit == 0 {
      var a :| a in chart && b == BalanceOf(rows, a, w);
      BalanceNonNegative(rows, a, w);
    }
    SumFilter(balances, Active(), DebitWeight());
    SumFilter(balances, Active(), CreditWeight());
    AggregateSum(chart, rows, w, AllKinds, DebitWeight());
    AggregateSum(chart, rows, w, AllKinds, CreditWeight());
    forall a | a in chart
      ensures OnAccounts(rows, w, AllKinds, DebitWeight())(a) == DebitsOn(rows, w)(a)
      ensures OnAccounts(rows, w, AllKinds, CreditWeight())(a) == CreditsOn(rows, w)(a)
    {
      BalanceSides(rows, a, w);
    }
    SumSame(chart, OnAccounts(rows, w, AllKinds, DebitWeight()), DebitsOn(rows, w));
    SumSame(chart, OnAccounts(rows, w, AllKinds, CreditWeight()), CreditsOn(rows, w));
    DebitsByAccount(chart, rows, w);
    CreditsByAccount(chart, rows, w);
  }

  ghost predicate OnListed(chart: seq<Account>, r: Row) { Find(chart, r.account).Some? && Find(chart, r.account).value.Listed() }

  ghost function ListedDebit(chart: seq<Account>, w: Window): Row -> int {
    (r: Row) => if Within(w, r.date) && OnListed(chart, r) then r.debit else 0
  }
  ghost function ListedCredit(chart: seq<Account>, w: Window): Row -> int {
    (r: Row) => if Within(w, r.date) && OnListed(chart, r) then r.credit else 0
  }
  function DebitsOn(rows: seq<Row>, w: Window): Account -> int {
    (a: Account) => if a.Listed() then Sum(rows, RowDebitOn(a.id, w)) else 0
  }
  function CreditsOn(rows: seq<Row>, w: Window): Account -> int {
    (a: Account) => if a.Listed() then Sum(rows, RowCreditOn(a.id, w)) else 0
  }
  function DebitOfRow(r: Row, w: Window): Account -> int { (a: Account) => if a.Listed() then RowDebitOn(a.id, w)(r) else 0 }
  function CreditOfRow(r: Row, w: Window): Account -> int { (a: Account) => if a.Listed() then RowCreditOn(a.id, w)(r) else 0 }

  lemma BalanceSides(rows: seq<Row>, a: Account, w: Window)
    ensures BalanceOf(rows, a, w).debit == Sum(rows, RowDebitOn(a.id, w))
    ensures BalanceOf(rows, a, w).credit == Sum(rows, RowCreditOn(a.id, w))
  {
  }

  lemma {:induction false} DebitsByAccount(chart: seq<Account>, rows: seq<Row>, w: Window)
    requires DistinctIds(chart)
    ensures Sum(chart, DebitsOn(rows, w)) == Sum(rows, ListedDebit(chart, w))
  {
    if rows == [] {
      SumZero(chart, DebitsOn(rows, w));
    } else {
      var init, last := rows[..|rows| - 1], rows[|rows| - 1];
      DebitsByAccount(chart, init, w);
      SumAdd(chart, DebitsOn(init, w), DebitOfRow(last, w), DebitsOn(rows, w));
      SumSingle(chart, last.account, DebitOfRow(last, w));
    }
  }

  lemma {:induction false} CreditsByAccount(chart: seq<Account>, rows: seq<Row>, w: Window)
    requires DistinctIds(chart)
    ensures Sum(chart, CreditsOn(rows, w)) == Sum(rows, ListedCredit(chart, w))
  {
    if rows == [] {
      SumZero(chart, CreditsOn(rows, w));
    } else {
      var init, last := rows[..|rows| - 1], rows[|rows| - 1];
      CreditsByAccount(chart, init, w);
      SumAdd(chart, CreditsOn(init, w), CreditOfRow(last, w), CreditsOn(rows, w));
      SumSingle(chart, last.account, CreditOfRow(last, w));
    }
  }
}
