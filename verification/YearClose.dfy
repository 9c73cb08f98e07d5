/** What closing a fiscal year does to the ledger, and when it goes through. */
module YearClose {
  import opened Wrappers
  import opened Sums
  import opened Money
  import opened Accounts
  import opened Ledger
  import opened Posting
  import opened FiscalCalendar
  import opened Reports
  import opened Books
  import opened BookInvariants

  // ---- The closing lines ----

  function Income(balances: seq<AccountBalance>): int { Sum(balances, IncomeWeight()) }
  function Expenses(balances: seq<AccountBalance>): int { Sum(balances, ExpenseWeight()) }

  function AccountClosing(balances: seq<AccountBalance>): seq<Line> {
    Map(Filter(balances, HasBalance()), ToClosingLine())
  }

  /** Income is debited and expense credited; retained earnings takes a difference of more than one unit. */
  lemma ClosingTotals(balances: seq<AccountBalance>, retained: string)
    ensures var net := NetIncome(balances);
      && Sum(ClosingLines(balances, retained), LineDebit()) == Income(balances) + (if net < -1 then -net else 0)
      && Sum(ClosingLines(balances, retained), LineCredit()) == Expenses(balances) + (if net > 1 then net else 0)
  {
    var lines := AccountClosing(balances);
    var net := NetIncome(balances);
    var kept := Filter(balances, HasBalance());
    SumMap(kept, ToClosingLine(), LineDebit(), IncomeWeight());
    SumMap(kept, ToClosingLine(), LineCredit(), ExpenseWeight());
    SumFilter(balances, HasBalance(), IncomeWeight());
    SumFilter(balances, HasBalance(), ExpenseWeight());
    SumAppend(lines, RetainedLines(net, retained), LineDebit());
    SumAppend(lines, RetainedLines(net, retained), LineCredit());
    RetainedSums(net, retained);
  }

  lemma RetainedSums(net: int, retained: string)
    ensures Sum(RetainedLines(net, retained), LineDebit()) == if net < -1 then -net else 0
    ensures Sum(RetainedLines(net, retained), LineCredit()) == if net > 1 then net else 0
    ensures forall a :: a != retained ==> Sum(RetainedLines(net, retained), LineNetOn(a)) == 0
  {
    if Abs(net) > 1 {
      var l := RetainedLines(net, retained)[0];
      SumOfOne(l, LineDebit());
      SumOfOne(l, LineCredit());
      forall a | a != retained ensures Sum([l], LineNetOn(a)) == 0 {
        SumOfOne(l, LineNetOn(a));
      }
    }
  }

  /** The closing entry balances exactly unless net income is one unit either way. */
  lemma ClosingBalancesIff(balances: seq<AccountBalance>, retained: string)
    ensures var lines := ClosingLines(balances, retained);
      (Sum(lines, LineDebit()) == Sum(lines, LineCredit()) <==> Abs(NetIncome(balances)) != 1)
      && (Abs(NetIncome(balances)) != 1 ==>
            Sum(lines, LineDebit()) == if Income(balances) >= Expenses(balances) then Income(balances) else Expenses(balances))
      && Abs(Sum(lines, LineDebit()) - Sum(lines, LineCredit())) <= 1
  {
    ClosingTotals(balances, retained);
  }

  function ClosingNetOn(account: string): AccountBalance -> int {
    (b: AccountBalance) => if b.account.id != account then 0 else if b.account.kind.Income? then b.balance else -b.balance
  }

  /** The closing lines undo the period's movement on a listed income or expense account, and leave any other alone. */
  lemma ClosingUndoes(chart: seq<Account>, rows: seq<Row>, w: Window, retained: Account, a: Account)
    requires ChartOk(chart) && a in chart && IsProfitAndLoss(a.kind)
    requires retained in chart && retained.kind.Equity?
    ensures var balances := Aggregate(chart, rows, w, ProfitAndLossKinds);
      Sum(ClosingLines(balances, retained.id), LineNetOn(a.id)) == if a.Listed() then -Movement(rows, a.id, w) else 0
  {
    hide BalanceOf, NetIncome, RetainedLines;
    var balances := Aggregate(chart, rows, w, ProfitAndLossKinds);
    assert retained.id != a.id by { FindMember(chart, retained); FindMember(chart, a); }
    var kept := Filter(balances, HasBalance());
    SumAppend(AccountClosing(balances), RetainedLines(NetIncome(balances), retained.id), LineNetOn(a.id));
    RetainedSums(NetIncome(balances), retained.id);
    SumMap(kept, ToClosingLine(), LineNetOn(a.id), ClosingNetOn(a.id));
    SumFilter(balances, HasBalance(), ClosingNetOn(a.id));
    AggregateSum(chart, rows, w, ProfitAndLossKinds, ClosingNetOn(a.id));
    var h := OnAccounts(rows, w, ProfitAndLossKinds, ClosingNetOn(a.id));
    forall x | x in chart && x.id != a.id ensures h(x) == 0 {
      assert BalanceOf(rows, x, w).account == x by { BalanceAccount(rows, x, w); }
    }
    SumSingle(chart, a.id, h);
    FindMember(chart, a);
    BalanceAccount(rows, a, w);
    ClosingNetOfAccount(rows, a, w);
  }

  lemma ClosingNetOfAccount(rows: seq<Row>, a: Account, w: Window)
    requires Classified(a) && IsProfitAndLoss(a.kind)
    ensures ClosingNetOn(a.id)(BalanceOf(rows, a, w)) == -Movement(rows, a.id, w)
  {
    BalanceIsMovement(rows, a, w);
  }

  // ---- Posting them ----

  function ClosingDraft(s: Books, period: Period, retained: string, currency: string): Journal {
    NewDraft(Closing, period.end, currency, ClosingLines(PeriodBalances(s, period), retained), None)
  }

  lemma PostClosingKeeps(s: Books, period: Period, retained: string, currency: string)
    requires Inv(s)
    ensures Inv(PostClosing(s, period, retained, currency).0)
  {
    hide Inv, PostJournal, ClosingLines, PeriodBalances;
    var draft := ClosingDraft(s, period, retained, currency);
    DraftKeeps(s, draft);
    PostAfter(CreateDraft(s, draft).0, |s.journals|);
  }

  lemma PostAfter(s: Books, id: nat)
    requires Inv(s)
    ensures Inv(PostJournal(s, id).0)
  {
    PostKeeps(s, id);
  }

  /** Only a complete set of closing lines, or none at all, gets past PostClosing. */
  lemma PostClosingRows(s: Books, period: Period, retained: string, currency: string)
    ensures var (t, outcome) := PostClosing(s, period, retained, currency);
      var lines := ClosingLines(PeriodBalances(s, period), retained);
      var draft := ClosingDraft(s, period, retained, currency);
      && t.chart == s.chart && t.periods == s.periods && t.closings == s.closings
      && (!outcome.Refused? ==> t.rows == s.rows + JournalRows(|s.journals|, draft))
      && (outcome.Refused? ==> t.rows == s.rows)
  {
    hide ClosingLines, PeriodBalances, PostingRefusal;
    var draft := ClosingDraft(s, period, retained, currency);
    assert s.rows + [] == s.rows;
    if draft.lines != [] && draft.totalDebit >= 0 && draft.totalCredit >= 0 {
      var drafted := CreateDraft(s, draft).0;
      if exists l :: l in draft.lines && !LineAllowed(l) {
        NoLinesNoPost(drafted, |s.journals|);
      }
    }
  }

  /** A draft whose lines were refused never posts. */
  lemma NoLinesNoPost(s: Books, id: nat)
    requires id < |s.journals| && s.journals[id].lines == []
    ensures PostingRefusal(s, id).Some?
  {
    assert Sum<Line>([], LineDebit()) == 0;
  }

  /** After a posted close, a listed income or expense account has no movement in the period; any other keeps its own. */
  lemma PeriodZero(s: Books, period: Period, retained: Account, currency: string, a: Account)
    requires Inv(s)
    requires a in s.chart && IsProfitAndLoss(a.kind)
    requires retained in s.chart && retained.kind.Equity?
    requires !PostClosing(s, period, retained.id, currency).1.Refused?
    ensures Movement(PostClosing(s, period, retained.id, currency).0.rows, a.id, Span(period))
         == if a.Listed() then 0 else Movement(s.rows, a.id, Span(period))
  {
    hide ClosingLines, PostClosing;
    var draft := ClosingDraft(s, period, retained.id, currency);
    PostClosingRows(s, period, retained.id, currency);
    if period.start > period.end {
      SumZero(s.rows, RowNetOn(a.id, Span(period)));
    }
    MovementAppend(s.rows, JournalRows(|s.journals|, draft), a.id, Span(period));
    JournalMovement(|s.journals|, draft, a.id, Span(period));
    ClosingUndoes(s.chart, s.rows, Span(period), retained, a);
  }

  // ---- The whole close ----

  lemma CloseKeeps(s: Books, p: nat, currency: string)
    requires Inv(s)
    ensures Inv(CloseYear(s, p, currency).0)
  {
    hide Inv, PostClosing, CarryForward;
    if CloseRefusal(s, p).None? {
      var period := s.periods[p];
      var retained := FindRetained(s.chart).value;
      PostClosingKeeps(s, period, retained.id, currency);
      var (posted, outcome) := PostClosing(s, period, retained.id, currency);
      PostClosingRows(s, period, retained.id, currency);
      if !outcome.Refused? {
        forall a | a in posted.chart && a.Listed() && IsProfitAndLoss(a.kind)
          ensures Movement(posted.rows, a.id, Span(period)) == 0
        {
          PeriodZero(s, period, retained, currency, a);
        }
        CarryKeeps(posted, p, currency, NetIncome(PeriodBalances(s, period)), |s.journals|);
      }
    }
  }

  lemma CarryKeeps(s: Books, p: nat, currency: string, netIncome: int, closing: nat)
    requires Inv(s) && p < |s.periods| && !s.periods[p].closed
    requires forall a :: a in s.chart && a.Listed() && IsProfitAndLoss(a.kind) ==> Movement(s.rows, a.id, Span(s.periods[p])) == 0
    ensures Inv(CarryForward(s, p, currency, netIncome, closing).0)
  {
    hide OpeningLines, NextFiscalPeriod;
    var t := CarryForward(s, p, currency, netIncome, closing).0;
    if t != s {
      var memo := t.journals[|s.journals|];
      var u := s.(journals := s.journals + [memo]);
      NoRowsAhead(s, |s.journals|);
      MemoAllowed(s, s.periods[p].end);
      AppendJournal(s, memo);
      SettledAfter(u, t, p);
    }
  }

  lemma MemoAllowed(s: Books, date: int)
    ensures forall l :: l in OpeningLines(s, date) ==> LineAllowed(l)
  {
    var kept := Filter(Aggregate(s.chart, s.rows, AsOf(date), PermanentKinds), Shown());
    forall l | l in OpeningLines(s, date) ensures LineAllowed(l) {
      var i :| 0 <= i < |kept| && OpeningLines(s, date)[i] == l;
    }
  }

  lemma SettledAfter(u: Books, t: Books, p: nat)
    requires Inv(u) && p < |u.periods| && !u.periods[p].closed && |t.periods| == |u.periods| + 1
    requires t.chart == u.chart && t.rows == u.rows && t.journals == u.journals
    requires t.periods[..|u.periods|] == u.periods[p := u.periods[p].(closed := true)]
    requires |t.closings| == |u.closings| + 1 && t.closings[..|u.closings|] == u.closings && t.closings[|u.closings|].period == p
    requires forall a :: a in u.chart && a.Listed() && IsProfitAndLoss(a.kind) ==> Movement(u.rows, a.id, Span(u.periods[p])) == 0
    ensures Inv(t)
  {
    hide Movement;
    forall i | 0 <= i < |u.periods|
      ensures t.periods[i] == if i == p then u.periods[p].(closed := true) else u.periods[i]
    {
      assert t.periods[i] == t.periods[..|u.periods|][i];
    }
    forall c | c in u.closings ensures c.period != p && Settled(t, c.period) { assert Settled(u, c.period); }
    assert Settled(t, p);
    assert t.closings == u.closings + [t.closings[|u.closings|]];
  }

  // ---- When a close goes through ----

  ghost predicate SitOnNormalSide(balances: seq<AccountBalance>) {
    forall b :: b in balances ==> b.balance >= 0
  }

  ghost predicate AllActive(balances: seq<AccountBalance>) {
    forall b :: b in balances && b.balance != 0 ==> b.account.active
  }

  lemma WeightsNonNegative(balances: seq<AccountBalance>)
    requires SitOnNormalSide(balances)
    ensures Income(balances) >= 0 && Expenses(balances) >= 0
    ensures forall b :: b in balances && b.balance > 0 ==> Income(balances) + Expenses(balances) > 0
  {
    SumNonNegative(balances, IncomeWeight());
    SumNonNegative(balances, ExpenseWeight());
    forall b | b in balances && b.balance > 0 ensures Income(balances) + Expenses(balances) > 0 {
      assert IncomeWeight()(b) + ExpenseWeight()(b) > 0;
    }
  }

  /** The closing lines can all be stored exactly when no balance is on the wrong side. */
  lemma ClosingLinesAllowedIff(balances: seq<AccountBalance>, retained: string)
    ensures (forall l :: l in ClosingLines(balances, retained) ==> LineAllowed(l)) <==> SitOnNormalSide(balances)
  {
    var kept := Filter(balances, HasBalance());
    var lines := ClosingLines(balances, retained);
    if SitOnNormalSide(balances) {
      forall l | l in lines ensures LineAllowed(l) {
        var i :| 0 <= i < |lines| && lines[i] == l;
        if i < |kept| { assert kept[i] in balances; }
      }
    } else {
      var b :| b in balances && b.balance < 0;
      assert b in kept;
      var i :| 0 <= i < |kept| && kept[i] == b;
      assert lines[i] in lines && !LineAllowed(lines[i]);
    }
  }

  lemma NothingToClose(balances: seq<AccountBalance>, retained: string)
    ensures ClosingLines(balances, retained) == [] <==> forall b :: b in balances ==> b.balance == 0
  {
    var kept := Filter(balances, HasBalance());
    if forall b :: b in balances ==> b.balance == 0 {
      if kept != [] { assert kept[0] in balances; }
      SumZero(balances, IncomeWeight());
      SumZero(balances, ExpenseWeight());
    } else {
      var b :| b in balances && b.balance != 0;
      assert b in kept;
    }
  }

  /** The accounts of the closing lines: those with a balance, and retained earnings. */
  lemma ClosingAccounts(balances: seq<AccountBalance>, retained: string, l: Line)
    requires l in ClosingLines(balances, retained)
    ensures (exists b :: b in balances && b.balance != 0 && b.account.id == l.account) || l.account == retained
    ensures !(l.debit == 0 && l.credit == 0) && !(l.debit > 0 && l.credit > 0)
  {
    var kept := Filter(balances, HasBalance());
    var i :| 0 <= i < |ClosingLines(balances, retained)| && ClosingLines(balances, retained)[i] == l;
    if i < |kept| { assert kept[i] in balances && kept[i].account.id == l.account; }
  }

  lemma ReportedAccounts(chart: seq<Account>, rows: seq<Row>, w: Window, b: AccountBalance)
    requires DistinctIds(chart) && b in Aggregate(chart, rows, w, ProfitAndLossKinds)
    ensures b.account in chart && b.account.Listed() && IsProfitAndLoss(b.account.kind)
    ensures Find(chart, b.account.id) == Some(b.account)
  {
    var listed := Filter(chart, Reported(ProfitAndLossKinds));
    var i :| 0 <= i < |listed| && b == BalanceOf(rows, listed[i], w);
    assert listed[i] in chart;
    BalanceAccount(rows, listed[i], w);
    FindMember(chart, b.account);
  }

  /** No account is closed by two lines, so the unique index never stands in the way of a close. */
  lemma ClosingDistinct(s: Books, period: Period, retained: Account, currency: string)
    requires DistinctIds(s.chart) && retained in s.chart && retained.kind.Equity?
    ensures Distinct(ClosingDraft(s, period, retained.id, currency).lines)
  {
    hide PeriodBalances, HasBalance, NetIncome;
    var balances := PeriodBalances(s, period);
    assert Apart(balances, AccountIdOf()) by { PeriodApart(s, period); }
    FilterApart(balances, HasBalance(), AccountIdOf());
    var kept := Filter(balances, HasBalance());
    var lines := ClosingDraft(s, period, retained.id, currency).lines;
    forall i | 0 <= i < |kept| ensures lines[i].account == AccountIdOf()(kept[i]) && lines[i].account != retained.id {
      assert kept[i] in balances;
      PeriodAccountIs(s, period, kept[i]);
      FindMember(s.chart, retained);
    }
  }

  lemma PeriodApart(s: Books, period: Period)
    requires DistinctIds(s.chart)
    ensures Apart(PeriodBalances(s, period), AccountIdOf())
  {
    AggregateApart(s.chart, s.rows, Span(period), ProfitAndLossKinds);
  }

  lemma PeriodAccountIs(s: Books, period: Period, b: AccountBalance)
    requires DistinctIds(s.chart) && b in PeriodBalances(s, period)
    ensures IsProfitAndLoss(b.account.kind) && Find(s.chart, b.account.id) == Some(b.account)
  {
    ReportedAccounts(s.chart, s.rows, Span(period), b);
  }

  /**
   The closing journal posts, or is not needed, exactly when every income and
   expense balance sits on its normal side, net income is not one unit either
   way, and every account with a balance is active.
   */
  lemma ClosingPostsIff(s: Books, period: Period, retained: Account, currency: string)
    requires Inv(s) && !ClosedOn(s.periods, period.end)
    requires retained in s.chart && retained.kind.Equity? && retained.active && !retained.deleted
    ensures var balances := PeriodBalances(s, period);
      !PostClosing(s, period, retained.id, currency).1.Refused?
      <==> SitOnNormalSide(balances) && Abs(NetIncome(balances)) != 1 && AllActive(balances)
  {
    hide PostingRefusal, ClosingLines, PeriodBalances, Inv;
    var balances := PeriodBalances(s, period);
    var draft := ClosingDraft(s, period, retained.id, currency);
    NothingToClose(balances, retained.id);
    ClosingLinesAllowedIff(balances, retained.id);
    ClosingTotals(balances, retained.id);
    if draft.lines == [] {
      SumZero(balances, IncomeWeight());
      SumZero(balances, ExpenseWeight());
    } else if SitOnNormalSide(balances) {
      WeightsNonNegative(balances);
      assert CreateDraft(s, draft) == (s.(journals := s.journals + [draft]), Done(|s.journals|));
      DraftedClosingPostsIff(s, period, retained, currency);
    } else if draft.totalDebit >= 0 && draft.totalCredit >= 0 {
      NoLinesNoPost(CreateDraft(s, draft).0, |s.journals|);
    }
  }

  lemma DraftedClosingPostsIff(s: Books, period: Period, retained: Account, currency: string)
    requires Inv(s) && !ClosedOn(s.periods, period.end)
    requires retained in s.chart && retained.kind.Equity? && retained.active && !retained.deleted
    requires SitOnNormalSide(PeriodBalances(s, period))
    requires ClosingDraft(s, period, retained.id, currency).lines != []
    ensures var draft := ClosingDraft(s, period, retained.id, currency);
      var balances := PeriodBalances(s, period);
      PostingRefusal(s.(journals := s.journals + [draft]), |s.journals|).None?
      <==> Abs(NetIncome(balances)) != 1 && AllActive(balances)
  {
    hide PeriodBalances, ClosingLines, NetIncome, Distinct;
    var balances := PeriodBalances(s, period);
    var draft := ClosingDraft(s, period, retained.id, currency);
    NoRowsAhead(s, |s.journals|);
    ClosingBalancesIff(balances, retained.id);
    WeightsNonNegative(balances);
    NothingToClose(balances, retained.id);
    ClosingBalanceOk(draft.lines);
    assert Abs(NetIncome(balances)) != 1 ==> draft.totalDebit > 0 by {
      var b :| b in balances && b.balance != 0;
    }
    ClosingUsable(s, period, retained, currency);
    ClosingDistinct(s, period, retained, currency);
  }

  lemma ClosingBalanceOk(lines: seq<Line>)
    ensures ValidateBalanced(lines).None?
      <==> Abs(Sum(lines, LineDebit()) - Sum(lines, LineCredit())) <= CENT && Sum(lines, LineDebit()) > 0
  {
  }

  lemma ClosingUsable(s: Books, period: Period, retained: Account, currency: string)
    requires DistinctIds(s.chart) && retained in s.chart && retained.active && !retained.deleted
    ensures var lines := ClosingDraft(s, period, retained.id, currency).lines;
      && (forall l :: l in lines ==> Known(s.chart, l.account))
      && ((forall l :: l in lines ==> Usable(s.chart, l.account)) <==> AllActive(PeriodBalances(s, period)))
      && ((forall l :: l in lines ==> LinePostable(s.chart, l)) <==> AllActive(PeriodBalances(s, period)))
  {
    hide ClosingLines;
    var balances := PeriodBalances(s, period);
    var lines := ClosingDraft(s, period, retained.id, currency).lines;
    FindMember(s.chart, retained);
    forall l | l in lines
      ensures Known(s.chart, l.account) && (AllActive(balances) ==> Usable(s.chart, l.account))
      ensures LinePostable(s.chart, l) <==> Usable(s.chart, l.account)
    {
      ClosingAccounts(balances, retained.id, l);
      if l.account != retained.id {
        var b :| b in balances && b.balance != 0 && b.account.id == l.account;
        ReportedAccounts(s.chart, s.rows, Span(period), b);
      }
    }
    if b :| b in balances && b.balance != 0 && !b.account.active {
      ReportedAccounts(s.chart, s.rows, Span(period), b);
      HasClosingLine(balances, retained.id, b);
    }
  }

  lemma HasClosingLine(balances: seq<AccountBalance>, retained: string, b: AccountBalance)
    requires b in balances && b.balance != 0
    ensures exists l :: l in ClosingLines(balances, retained) && l.account == b.account.id
  {
    var kept := Filter(balances, HasBalance());
    var i :| 0 <= i < |kept| && kept[i] == b;
    assert ClosingLines(balances, retained)[i] in ClosingLines(balances, retained);
  }

  /**
   A close that passes its first checks completes exactly under the conditions
   above, provided that the next period does not exist yet.
   */
  lemma CloseCompletesIff(s: Books, p: nat, currency: string)
    requires Inv(s) && CloseRefusal(s, p).None?
    ensures var balances := PeriodBalances(s, s.periods[p]);
      var next := NextFiscalPeriod(s.periods[p].end);
      CloseYear(s, p, currency).1.Done?
      <==> SitOnNormalSide(balances) && Abs(NetIncome(balances)) != 1 && AllActive(balances)
           && !PeriodExists(s.periods, next.start, next.end)
  {
    hide Inv, PeriodBalances, SitOnNormalSide, AllActive, NetIncome, PostClosing, OpeningLines, NextFiscalPeriod;
    var period := s.periods[p];
    var retained := FindRetained(s.chart).value;
    ClosingPostsIff(s, period, retained, currency);
    PostClosingRows(s, period, retained.id, currency);
    PostClosingDone(s, period, retained.id, currency);
  }

  lemma PostClosingDone(s: Books, period: Period, retained: string, currency: string)
    ensures var outcome := PostClosing(s, period, retained, currency).1;
      !outcome.Refused? ==> outcome.Done?
  {
  }
}
