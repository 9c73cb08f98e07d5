/** What reports can rely on after any run: open earnings, balance and once-only documents. */
module LedgerRuns {
  import opened Wrappers
  import opened Sums
  import opened Money
  import opened Accounts
  import opened Ledger
  import opened Posting
  import opened FiscalCalendar
  import opened Reports
  import opened Books
  import opened BookInvariants
  import opened YearClose
  import opened CloseEffect
  import opened BookRuns
  import opened FiscalRuns

  // ---- Earnings are what closed years have not absorbed ----

  /** The instant lies in the year this record closed, and that year had ended by the date. */
  predicate InYear(periods: seq<Period>, c: YearClosing, date: int, instant: int) {
    c.period < |periods| && periods[c.period].end <= date && Within(Span(periods[c.period]), instant)
  }

  predicate InYears(periods: seq<Period>, closings: seq<YearClosing>, date: int, instant: int) {
    exists c :: c in closings && InYear(periods, c, date, instant)
  }

  function OutsideYears(t: Books, date: int): Row -> bool { (r: Row) => !InYears(t.periods, t.closings, date, r.date) }

  function OpenNetOn(t: Books, n: nat, account: string, date: int): Row -> int
    requires n <= |t.closings|
  {
    (r: Row) =>
      if r.account == account && r.date <= date && !InYears(t.periods, t.closings[..n], date, r.date)
      then r.debit - r.credit else 0
  }

  function YearNetOn(t: Books, n: nat, account: string, date: int): Row -> int
    requires n < |t.closings|
  {
    (r: Row) =>
      if r.account == account && InYear(t.periods, t.closings[n], date, r.date) then r.debit - r.credit else 0
  }

  /** The rows of a closed year that lie in a year closed before it as well. */
  function RepeatNetOn(t: Books, n: nat, account: string, date: int): Row -> int
    requires n < |t.closings|
  {
    (r: Row) =>
      if r.account == account && InYear(t.periods, t.closings[n], date, r.date) && InYears(t.periods, t.closings[..n], date, r.date)
      then r.debit - r.credit else 0
  }

  /** What rows shared by closed years move an account by, once for every closed year after the first. */
  function Repeated(t: Books, n: nat, account: string, date: int): int
    requires n <= |t.closings|
  {
    if n == 0 then 0 else Repeated(t, n - 1, account, date) + Sum(t.rows, RepeatNetOn(t, n - 1, account, date))
  }

  lemma InYearsStep(periods: seq<Period>, closings: seq<YearClosing>, n: nat, date: int, instant: int)
    requires n < |closings|
    ensures InYears(periods, closings[..n + 1], date, instant)
      <==> InYears(periods, closings[..n], date, instant) || InYear(periods, closings[n], date, instant)
  {
    hide InYear;
    var init := closings[..n];
    assert closings[..n + 1] == init + [closings[n]];
    assert closings[n] in init + [closings[n]] && forall c :: c in init ==> c in init + [closings[n]];
  }

  ghost predicate QuietYears(t: Books, account: string) {
    forall c :: c in t.closings ==> c.period < |t.periods| && Movement(t.rows, account, Span(t.periods[c.period])) == 0
  }

  lemma {:induction false} OpenMovement(t: Books, account: string, date: int, n: nat)
    requires n <= |t.closings| && QuietYears(t, account)
    ensures Sum(t.rows, OpenNetOn(t, n, account, date)) == Movement(t.rows, account, AsOf(date)) + Repeated(t, n, account, date)
  {
    hide InYear, InYears, QuietYears;
    if n == 0 {
      NoYearsYet(t, account, date);
    } else {
      var k := n - 1;
      OpenMovement(t, account, date, k);
      var before, after := OpenNetOn(t, k, account, date), OpenNetOn(t, n, account, date);
      var year, again := YearNetOn(t, k, account, date), RepeatNetOn(t, k, account, date);
      var both := AfterAndYear(t, k, account, date);
      forall r | r in t.rows ensures both(r) == after(r) + year(r) && both(r) == before(r) + again(r) {
        OneYearMore(t, k, account, date, r);
      }
      SumAdd(t.rows, after, year, both);
      SumAdd(t.rows, before, again, both);
      YearContributesNothing(t, k, account, date);
    }
  }

  lemma NoYearsYet(t: Books, account: string, date: int)
    ensures Sum(t.rows, OpenNetOn(t, 0, account, date)) == Movement(t.rows, account, AsOf(date))
  {
    SumSame(t.rows, OpenNetOn(t, 0, account, date), RowNetOn(account, AsOf(date)));
  }

  function AfterAndYear(t: Books, k: nat, account: string, date: int): Row -> int
    requires k < |t.closings|
  {
    (r: Row) => OpenNetOn(t, k + 1, account, date)(r) + YearNetOn(t, k, account, date)(r)
  }

  lemma OneYearMore(t: Books, k: nat, account: string, date: int, r: Row)
    requires k < |t.closings|
    ensures OpenNetOn(t, k + 1, account, date)(r) + YearNetOn(t, k, account, date)(r)
      == OpenNetOn(t, k, account, date)(r) + RepeatNetOn(t, k, account, date)(r)
  {
    hide InYears;
    InYearsStep(t.periods, t.closings, k, date, r.date);
  }

  lemma YearContributesNothing(t: Books, k: nat, account: string, date: int)
    requires k < |t.closings| && QuietYears(t, account)
    ensures Sum(t.rows, YearNetOn(t, k, account, date)) == 0
  {
    var d := YearNetOn(t, k, account, date);
    var c := t.closings[k];
    assert c in t.closings;
    if t.periods[c.period].end <= date {
      SumSame(t.rows, d, RowNetOn(account, Span(t.periods[c.period])));
    } else {
      SumZero(t.rows, d);
    }
  }

  lemma MovementOutside(t: Books, account: string, date: int)
    requires QuietYears(t, account)
    ensures Movement(Filter(t.rows, OutsideYears(t, date)), account, AsOf(date))
      == Movement(t.rows, account, AsOf(date)) + Repeated(t, |t.closings|, account, date)
  {
    hide InYears, QuietYears, Repeated;
    var f := OpenNetOn(t, |t.closings|, account, date);
    OpenMovement(t, account, date, |t.closings|);
    assert t.closings[..|t.closings|] == t.closings;
    SumFilter(t.rows, OutsideYears(t, date), f);
    SumSame(Filter(t.rows, OutsideYears(t, date)), RowNetOn(account, AsOf(date)), f);
  }

  /** What an account takes to the earnings is minus its movement, if it is listed and takes part in profit. */
  lemma AccountEarnings(rows: seq<Row>, a: Account, w: Window)
    requires Classified(a)
    ensures OnAccounts(rows, w, AllKinds, EarningsWeight())(a)
      == if a.Listed() && IsProfitAndLoss(a.kind) then -Movement(rows, a.id, w) else 0
  {
    BalanceIsMovement(rows, a, w);
    var b := BalanceOf(rows, a, w);
    assert EarningsWeight()(b) == if IsProfitAndLoss(a.kind) then -Movement(rows, a.id, w) else 0;
    assert OnAccounts(rows, w, AllKinds, EarningsWeight())(a) == if a.Listed() then EarningsWeight()(b) else 0;
  }

  lemma InvQuiet(t: Books, a: Account)
    requires Inv(t) && a in t.chart && a.Listed() && IsProfitAndLoss(a.kind)
    ensures QuietYears(t, a.id)
  {
    forall c | c in t.closings
      ensures c.period < |t.periods| && Movement(t.rows, a.id, Span(t.periods[c.period])) == 0
    {
      SettledZero(t, c, a);
    }
  }

  function RepeatedOn(t: Books, date: int): Account -> int {
    (a: Account) => if a.Listed() && IsProfitAndLoss(a.kind) then Repeated(t, |t.closings|, a.id, date) else 0
  }

  /** Profit that closed years have in common, and that was therefore handed over once too often. */
  function RepeatedProfit(t: Books, date: int): int { Sum(t.chart, RepeatedOn(t, date)) }

  lemma AccountEarningsOutside(t: Books, date: int, a: Account)
    requires Inv(t) && a in t.chart
    ensures OnAccounts(t.rows, AsOf(date), AllKinds, EarningsWeight())(a)
      == OnAccounts(Filter(t.rows, OutsideYears(t, date)), AsOf(date), AllKinds, EarningsWeight())(a) + RepeatedOn(t, date)(a)
  {
    hide Movement, QuietYears, InYears, Repeated;
    AccountEarnings(t.rows, a, AsOf(date));
    AccountEarnings(Filter(t.rows, OutsideYears(t, date)), a, AsOf(date));
    if a.Listed() && IsProfitAndLoss(a.kind) {
      InvQuiet(t, a);
      MovementOutside(t, a.id, date);
    }
  }

  function EarningsOf(t: Books, rows: seq<Row>, date: int): int {
    UnclosedEarnings(Aggregate(t.chart, rows, AsOf(date), AllKinds))
  }

  lemma EarningsOutside(t: Books, date: int)
    requires Inv(t)
    ensures EarningsOf(t, t.rows, date) == EarningsOf(t, Filter(t.rows, OutsideYears(t, date)), date) + RepeatedProfit(t, date)
  {
    hide Inv, RepeatedOn;
    var open := Filter(t.rows, OutsideYears(t, date));
    var f, g := OnAccounts(t.rows, AsOf(date), AllKinds, EarningsWeight()), OnAccounts(open, AsOf(date), AllKinds, EarningsWeight());
    AggregateSum(t.chart, t.rows, AsOf(date), AllKinds, EarningsWeight());
    AggregateSum(t.chart, open, AsOf(date), AllKinds, EarningsWeight());
    forall a | a in t.chart ensures f(a) == g(a) + RepeatedOn(t, date)(a) { AccountEarningsOutside(t, date, a); }
    SumAdd(t.chart, g, RepeatedOn(t, date), f);
  }

  /**
   After any run, the earnings on a balance sheet of any date are those of the rows
   outside the years that were closed and had ended by then, plus the profit that
   such years have in common: exactly the outside rows' when they have none.
   */
  lemma EarningsAreUnclosed(s: Books, steps: seq<Step>, date: int)
    requires Inv(s)
    ensures var t := Run(s, steps);
      EarningsOf(t, t.rows, date) == EarningsOf(t, Filter(t.rows, OutsideYears(t, date)), date) + RepeatedProfit(t, date)
  {
    hide Run, Inv, RepeatedProfit, EarningsOf;
    RunKeeps(s, steps);
    EarningsOutside(Run(s, steps), date);
  }

  lemma FiscalYearsShareNothing(t: Books, month: int, day: int, k: nat, date: int, instant: int)
    requires Inv(t) && FiscalYears(t.periods, month, day) && Annual(month, day)
    requires k < |t.closings| && InYear(t.periods, t.closings[k], date, instant)
    ensures !InYears(t.periods, t.closings[..k], date, instant)
  {
    hide Annual, IsFiscalYear, Movement;
    forall c | c in t.closings[..k] ensures !InYear(t.periods, c, date, instant) {
      var i :| 0 <= i < k && t.closings[..k][i] == c;
      var a, b := t.closings[i].period, t.closings[k].period;
      assert a != b;
      if InYear(t.periods, c, date, instant) {
        YearsApartFrom(t.periods[a], t.periods[b], month, day, instant);
      }
    }
  }

  lemma {:induction false} NothingRepeated(t: Books, month: int, day: int, n: nat, account: string, date: int)
    requires Inv(t) && FiscalYears(t.periods, month, day) && Annual(month, day) && n <= |t.closings|
    ensures Repeated(t, n, account, date) == 0
  {
    hide Inv, FiscalYears, Annual, InYear, InYears;
    if n > 0 {
      NothingRepeated(t, month, day, n - 1, account, date);
      var f := RepeatNetOn(t, n - 1, account, date);
      forall r | r in t.rows ensures f(r) == 0 {
        if InYear(t.periods, t.closings[n - 1], date, r.date) {
          FiscalYearsShareNothing(t, month, day, n - 1, date, r.date);
        }
      }
      SumZero(t.rows, f);
    }
  }

  /**
   A company that keeps one fiscal start has no such profit after any run: its closed
   years are distinct fiscal years. Empty books have no periods, so any run may start
   from them.
   */
  lemma OneStartRepeatsNothing(s: Books, steps: seq<Step>, text: string, date: int)
    requires s == EMPTY || (Inv(s) && FiscalYears(s.periods, ParseStart(text).0, ParseStart(text).1))
    requires OneFiscalStart(steps, text)
    ensures RepeatedProfit(Run(s, steps), date) == 0
  {
    hide Run, Inv, FiscalYears, Annual, ParseStart, Repeated;
    var (month, day) := ParseStart(text);
    if s == EMPTY {
      EmptyOk();
      NoYears(month, day);
    }
    RunKeeps(s, steps);
    RunYears(s, steps, text);
    var t := Run(s, steps);
    forall a | a in t.chart ensures RepeatedOn(t, date)(a) == 0 {
      NothingRepeated(t, month, day, |t.closings|, a.id, date);
    }
    SumZero(t.chart, RepeatedOn(t, date));
  }

  lemma NoYears(month: int, day: int)
    ensures FiscalYears([], month, day)
  {
  }

  // ---- How far the ledger can be out of balance ----

  /** Journals post exactly balanced rows. */
  lemma PostNet(s: Books, id: nat, w: Window)
    requires id < |s.journals| ==> Honest(s.journals[id])
    ensures Net(PostJournal(s, id).0.rows, w) == Net(s.rows, w)
  {
    hide Net, JournalRows, Usable, Known, LinePostable, ClosedOn, HasOrigin;
    if PostingRefusal(s, id).None? {
      var j := s.journals[id];
      assert Sum<Line>([], LineDebit()) == 0;
      NetAppend(s.rows, JournalRows(id, j), w);
      PostedRowsNet(id, j, w);
    }
  }

  lemma PostedRowsNet(id: nat, j: Journal, w: Window)
    requires Honest(j) && j.totalDebit == j.totalCredit
    ensures Net(JournalRows(id, j), w) == 0
  {
    JournalNet(id, j, w);
  }

  lemma DraftAndPostNet(s: Books, draft: Journal, w: Window)
    requires Totalled(draft)
    ensures Net(DraftAndPost(s, draft).0.rows, w) == Net(s.rows, w)
  {
    hide PostJournal;
    PostNet(CreateDraft(s, draft).0, |s.journals|, w);
  }

  /** The document is new and is not refused. */
  predicate Posts(s: Books, doc: Document) {
    !HasOrigin(s.rows, FromDocument(doc.kind, doc.id)) && !PostDocument(s, doc).1.Refused?
  }

  /** What posting the lines adds to the net: their imbalance less that of the lines without a positive side, which are dropped. */
  function PostedNet(lines: seq<PostingLine>): int { Sum(lines, NetOf()) - Sum(lines, DroppedNet()) }

  /**
   For any lines at all: a document that posts changes the ledger's net by the
   imbalance of its lines less that of the lines dropped, any other not at all. So
   the ledger stays within 0.01 of where it was exactly when the dropped lines are
   within 0.01 of the whole imbalance.
   */
  lemma DocumentNet(s: Books, doc: Document, w: Window)
    ensures Net(PostDocument(s, doc).0.rows, w) - Net(s.rows, w)
      == if Posts(s, doc) && Within(w, doc.date) then PostedNet(doc.lines) else 0
    ensures Posts(s, doc) ==> Abs(Sum(doc.lines, NetOf())) <= CENT
  {
    hide Net, DocumentRows, RowAllowed, ClosedOn, Known, Usable, HasOrigin;
    if Posts(s, doc) {
      FirstPostingAppends(s, doc);
      NetAppend(s.rows, DocumentRows(doc), w);
      PlainNet(doc.lines);
      DocumentRowsNet(doc, w);
    }
  }

  lemma DocumentRowsNet(doc: Document, w: Window)
    ensures Net(DocumentRows(doc), w) == if Within(w, doc.date) then PostedNet(doc.lines) else 0
  {
    GroupImbalance(doc.lines);
    if Within(w, doc.date) {
      SumMap(Group(doc.lines), RowOf(doc), RowNetIn(w), NetOf());
    } else {
      SumZero(DocumentRows(doc), RowNetIn(w));
    }
  }

  predicate PlainStep(step: Step) { !step.DocumentStep? }

  lemma OtherStepNet(s: Books, step: Step, w: Window)
    requires Inv(s) && PlainStep(step)
    ensures Net(Apply(s, step).rows, w) == Net(s.rows, w)
  {
    hide PostJournal, CloseYear, Reverse, Adjust, Inv, FiscalPeriodForDate, Net;
    match step
    case PostStep(id) => InvHonest(s, id); PostNet(s, id, w);
    case ReverseStep(id, date) => ReverseNet(s, id, date, w);
    case AdjustStep(id, date, lines, autoPost) => AdjustNet(s, id, date, lines, autoPost, w);
    case CloseStep(p, currency) => CloseNet(s, p, currency, w);
    case _ =>
  }

  lemma ReverseNet(s: Books, id: nat, date: int, w: Window)
    ensures Net(Reverse(s, id, date).0.rows, w) == Net(s.rows, w)
  {
    hide DraftAndPost, Net, ValidateContext, AlreadyReversedIn;
    if id < |s.journals| {
      DraftAndPostNet(s, NewDraft(Reversing, date, s.journals[id].currency, Swapped(s.journals[id].lines), Some(id)), w);
    }
  }

  lemma AdjustNet(s: Books, id: nat, date: int, lines: seq<Line>, autoPost: bool, w: Window)
    ensures Net(Adjust(s, id, date, lines, autoPost).0.rows, w) == Net(s.rows, w)
  {
    hide DraftAndPost, Net, ValidateContext;
    if id < |s.journals| {
      DraftAndPostNet(s, NewDraft(Adjusting, date, s.journals[id].currency, lines, Some(id)), w);
    }
  }

  lemma CloseNet(s: Books, p: nat, currency: string, w: Window)
    requires Inv(s)
    ensures Net(CloseYear(s, p, currency).0.rows, w) == Net(s.rows, w)
  {
    hide CloseYear, PostClosing, ClosingRows, Inv;
    CloseRows(s, p, currency);
    NetAppend(s.rows, if ClosesLedger(s, p, currency) then ClosingRows(s, p, currency) else [], w);
    if ClosesLedger(s, p, currency) { ClosingRowsBalance(s, p, currency, w); }
  }

  lemma InvHonest(s: Books, id: nat)
    requires Inv(s)
    ensures id < |s.journals| ==> Honest(s.journals[id])
  {
    if id < |s.journals| { assert JournalOk(s.rows, s.journals[id], id); }
  }

  /** How far one step can move the net: 0.01 for a document, and whatever its dropped lines come to. */
  function Slack(step: Step): nat {
    if step.DocumentStep? then CENT + Abs(Sum(step.doc.lines, DroppedNet())) else 0
  }

  function TotalSlack(steps: seq<Step>): nat {
    if steps == [] then 0 else TotalSlack(steps[..|steps| - 1]) + Slack(steps[|steps| - 1])
  }

  /** Every document's rows balance exactly. */
  ghost predicate ExactDocuments(steps: seq<Step>) {
    forall step :: step in steps && step.DocumentStep? ==> PostedNet(step.doc.lines) == 0
  }

  /** Lines with no negative side have nothing to drop. */
  lemma NothingDropped(step: Step)
    requires step.DocumentStep? && AllNonNegative(step.doc.lines)
    ensures Slack(step) == CENT && PostedNet(step.doc.lines) == Sum(step.doc.lines, NetOf())
  {
    SumZero(step.doc.lines, DroppedNet());
  }

  function Documents(steps: seq<Step>): nat {
    if steps == [] then 0
    else Documents(steps[..|steps| - 1]) + if steps[|steps| - 1].DocumentStep? then 1 else 0
  }

  /** Over documents whose lines have no negative side, the slack is 0.01 for each, and exact lines are exact rows. */
  lemma {:induction false} CleanSlack(steps: seq<Step>)
    requires forall step :: step in steps && step.DocumentStep? ==> AllNonNegative(step.doc.lines)
    ensures TotalSlack(steps) == CENT * Documents(steps)
    ensures (forall step :: step in steps && step.DocumentStep? ==> Sum(step.doc.lines, NetOf()) == 0) ==> ExactDocuments(steps)
  {
    hide AllNonNegative, Slack, PostedNet, Sum;
    forall step | step in steps && step.DocumentStep?
      ensures Slack(step) == CENT && PostedNet(step.doc.lines) == Sum(step.doc.lines, NetOf())
    {
      NothingDropped(step);
    }
    if steps != [] {
      var init, last := steps[..|steps| - 1], steps[|steps| - 1];
      assert last in steps && forall step :: step in init ==> step in steps;
      CleanSlack(init);
      if !last.DocumentStep? { OtherSlack(last); }
    }
  }

  lemma OtherSlack(step: Step)
    requires !step.DocumentStep?
    ensures Slack(step) == 0
  {
  }

  /**
   Over any run, debits and credits drift apart by at most 0.01 for each document
   and what its dropped lines come to, and not at all when every document's rows
   balance: within any window of dates.
   */
  lemma {:induction false} RunDrift(s: Books, steps: seq<Step>, w: Window)
    requires Inv(s)
    ensures Abs(Net(Run(s, steps).rows, w) - Net(s.rows, w)) <= TotalSlack(steps)
    ensures ExactDocuments(steps) ==> Net(Run(s, steps).rows, w) == Net(s.rows, w)
  {
    hide Apply, Net, Inv, Slack, PostedNet;
    if steps != [] {
      var init, last := steps[..|steps| - 1], steps[|steps| - 1];
      assert last in steps && forall step :: step in init ==> step in steps;
      RunDrift(s, init, w);
      RunKeeps(s, init);
      ApplyDrift(Run(s, init), last, w);
    }
  }

  lemma ApplyDrift(s: Books, step: Step, w: Window)
    requires Inv(s)
    ensures Abs(Net(Apply(s, step).rows, w) - Net(s.rows, w)) <= Slack(step)
    ensures step.DocumentStep? && PostedNet(step.doc.lines) == 0 ==> Net(Apply(s, step).rows, w) == Net(s.rows, w)
    ensures !step.DocumentStep? ==> Net(Apply(s, step).rows, w) == Net(s.rows, w)
  {
    hide PostDocument, Inv, Net, Sum, Posts;
    if step.DocumentStep? { DocumentNet(s, step.doc, w); } else { OtherStepNet(s, step, w); }
  }

  function HeaderAccount(): Account -> bool { (a: Account) => a.header }

  /** The net of the rows on header accounts, which no report shows. */
  function HeaderNet(s: Books, w: Window): int { Sum(s.rows, PickedNet(s.chart, w, HeaderAccount())) }

  /**
   Reports after any run from empty books are out by the rows on header accounts
   alone, give or take 0.01 for each document and what its dropped lines come to.
   When every document's rows balance, the trial balance is shown as balanced
   exactly when those rows net to less than 0.01, and assets equal liabilities plus
   equity plus unclosed earnings exactly when they net to nothing.
   */
  lemma ReportsAfterRun(steps: seq<Step>, w: Window)
    ensures var t := Run(EMPTY, steps);
      var balances := Aggregate(t.chart, t.rows, w, AllKinds);
      var tb := TrialBalanceOf(balances);
      && Abs(tb.totalDebit - tb.totalCredit + HeaderNet(t, w)) <= TotalSlack(steps)
      && (ExactDocuments(steps) ==>
            && tb.totalDebit - tb.totalCredit == -HeaderNet(t, w) && (tb.isBalanced <==> Abs(HeaderNet(t, w)) < CENT)
            && (SheetDifference(balances) == 0 <==> HeaderNet(t, w) == 0))
  {
    hide Run, TrialBalanceOf, SheetDifference, Aggregate, HeaderNet, ExactDocuments, TotalSlack;
    EmptyOk();
    RunKeeps(EMPTY, steps);
    RunDrift(EMPTY, steps, w);
    ReportsOfNet(Run(EMPTY, steps), w);
  }

  /** How far the reports are out, in terms of the ledger's net. */
  lemma ReportsOfNet(t: Books, w: Window)
    requires Inv(t)
    ensures var balances := Aggregate(t.chart, t.rows, w, AllKinds);
      var tb := TrialBalanceOf(balances);
      && tb.totalDebit - tb.totalCredit == Net(t.rows, w) - HeaderNet(t, w)
      && (tb.isBalanced <==> Abs(tb.totalDebit - tb.totalCredit) < CENT)
      && SheetDifference(balances) == Net(t.rows, w) - HeaderNet(t, w)
  {
    hide TrialBalanceOf, SheetDifference, Aggregate, HeaderNet;
    InvRows(t);
    TrialBalanceIsNet(t.chart, t.rows, w);
    SheetDifferenceIsNet(t.chart, t.rows, w);
    ListedAndHeader(t, w);
    ShownAsBalanced(Aggregate(t.chart, t.rows, w, AllKinds));
  }

  lemma ShownAsBalanced(balances: seq<AccountBalance>)
    ensures var tb := TrialBalanceOf(balances); tb.isBalanced <==> Abs(tb.totalDebit - tb.totalCredit) < CENT
  {
  }

  lemma InvRows(s: Books)
    requires Inv(s)
    ensures ChartOk(s.chart) && NonNegativeRows(s.rows)
  {
  }

  /** No row is on a deleted account, so a row that is not on a listed account is on a header. */
  lemma ListedAndHeader(s: Books, w: Window)
    requires Inv(s)
    ensures Net(s.rows, w) == Sum(s.rows, PickedNet(s.chart, w, ListedAccount())) + HeaderNet(s, w)
  {
    forall r | r in s.rows
      ensures RowNetIn(w)(r) == PickedNet(s.chart, w, ListedAccount())(r) + PickedNet(s.chart, w, HeaderAccount())(r)
    {
      assert Known(s.chart, r.account);
    }
    SumAdd(s.rows, PickedNet(s.chart, w, ListedAccount()), PickedNet(s.chart, w, HeaderAccount()), RowNetIn(w));
  }

  // ---- Documents post once ----

  function OfOrigin(origin: Origin): Row -> bool { (r: Row) => r.origin == origin }

  /** A step adds rows of a document only if it posts that document for the first time. */
  lemma ApplyOrigin(s: Books, step: Step, kind: string, id: string)
    requires HasOrigin(s.rows, FromDocument(kind, id))
    ensures Filter(Apply(s, step).rows, OfOrigin(FromDocument(kind, id))) == Filter(s.rows, OfOrigin(FromDocument(kind, id)))
    ensures HasOrigin(Apply(s, step).rows, FromDocument(kind, id))
  {
    hide PostJournal, CloseYear, DraftAndPost, PostDocument, FiscalPeriodForDate, ValidateContext, HasOrigin, Filter;
    match step
    case DocumentStep(doc) => DocumentOrigin(s, doc, kind, id);
    case PostStep(j) => PostOrigin(s, j, kind, id);
    case ReverseStep(j, date) =>
      if j < |s.journals| {
        var draft := NewDraft(Reversing, date, s.journals[j].currency, Swapped(s.journals[j].lines), Some(j));
        DraftAndPostOrigin(s, draft, kind, id);
      }
    case AdjustStep(j, date, lines, autoPost) =>
      if j < |s.journals| {
        DraftAndPostOrigin(s, NewDraft(Adjusting, date, s.journals[j].currency, lines, Some(j)), kind, id);
      }
    case CloseStep(p, currency) => CloseOrigin(s, p, currency, kind, id);
    case _ =>
  }

  lemma ClosingRowsOrigin(s: Books, p: nat, currency: string)
    requires p < |s.periods| && FindRetained(s.chart).Some?
    ensures forall r :: r in ClosingRows(s, p, currency) ==> r.origin.FromJournal?
  {
  }

  lemma CloseOrigin(s: Books, p: nat, currency: string, kind: string, id: string)
    requires HasOrigin(s.rows, FromDocument(kind, id))
    ensures var t := CloseYear(s, p, currency).0;
      Filter(t.rows, OfOrigin(FromDocument(kind, id))) == Filter(s.rows, OfOrigin(FromDocument(kind, id)))
      && HasOrigin(t.rows, FromDocument(kind, id))
  {
    hide CloseYear, PostClosing, HasOrigin, ClosingRows, Filter;
    CloseRows(s, p, currency);
    if ClosesLedger(s, p, currency) { ClosingRowsOrigin(s, p, currency); }
    AppendOrigin(s.rows, if ClosesLedger(s, p, currency) then ClosingRows(s, p, currency) else [], FromDocument(kind, id));
  }

  lemma AppendOrigin(rows: seq<Row>, more: seq<Row>, o: Origin)
    requires HasOrigin(rows, o) && forall r :: r in more ==> r.origin != o
    ensures Filter(rows + more, OfOrigin(o)) == Filter(rows, OfOrigin(o)) && HasOrigin(rows + more, o)
  {
    FilterAppend(rows, more, OfOrigin(o));
    FilterNone(more, OfOrigin(o));
    var r :| r in rows && r.origin == o;
    assert r in rows + more;
  }

  lemma DocumentOrigin(s: Books, doc: Document, kind: string, id: string)
    requires HasOrigin(s.rows, FromDocument(kind, id))
    ensures var t := PostDocument(s, doc).0;
      Filter(t.rows, OfOrigin(FromDocument(kind, id))) == Filter(s.rows, OfOrigin(FromDocument(kind, id)))
      && HasOrigin(t.rows, FromDocument(kind, id))
  {
    if PostDocument(s, doc).0 != s {
      AppendOrigin(s.rows, DocumentRows(doc), FromDocument(kind, id));
    }
  }

  lemma PostOrigin(s: Books, j: nat, kind: string, id: string)
    requires HasOrigin(s.rows, FromDocument(kind, id))
    ensures var t := PostJournal(s, j).0;
      Filter(t.rows, OfOrigin(FromDocument(kind, id))) == Filter(s.rows, OfOrigin(FromDocument(kind, id)))
      && HasOrigin(t.rows, FromDocument(kind, id))
  {
    if PostingRefusal(s, j).None? {
      AppendOrigin(s.rows, JournalRows(j, s.journals[j]), FromDocument(kind, id));
    }
  }

  lemma DraftAndPostOrigin(s: Books, draft: Journal, kind: string, id: string)
    requires HasOrigin(s.rows, FromDocument(kind, id))
    ensures var t := DraftAndPost(s, draft).0;
      Filter(t.rows, OfOrigin(FromDocument(kind, id))) == Filter(s.rows, OfOrigin(FromDocument(kind, id)))
      && HasOrigin(t.rows, FromDocument(kind, id))
  {
    hide PostJournal;
    PostOrigin(CreateDraft(s, draft).0, |s.journals|, kind, id);
  }

  /** Whatever runs after a document was posted, its rows in the ledger stay those of that one posting. */
  lemma {:induction false} DocumentPostsOnce(s: Books, steps: seq<Step>, kind: string, id: string)
    requires HasOrigin(s.rows, FromDocument(kind, id))
    ensures Filter(Run(s, steps).rows, OfOrigin(FromDocument(kind, id))) == Filter(s.rows, OfOrigin(FromDocument(kind, id)))
    ensures HasOrigin(Run(s, steps).rows, FromDocument(kind, id))
  {
    hide Apply, HasOrigin;
    if steps != [] {
      DocumentPostsOnce(s, steps[..|steps| - 1], kind, id);
      ApplyOrigin(Run(s, steps[..|steps| - 1]), steps[|steps| - 1], kind, id);
    }
  }

  // ---- A close that can never complete ----

  /** The period that would follow already exists. */
  ghost predicate Blocked(s: Books, p: nat) {
    && p < |s.periods|
    && var next := NextFiscalPeriod(s.periods[p].end); PeriodExists(s.periods, next.start, next.end)
  }

  /**
   A period whose successor exists is closed after a run exactly when it was closed
   before, or the run closes it without a closing journal: no year close ever does.
   */
  lemma {:induction false} OnlyBareCloseIff(s: Books, p: nat, steps: seq<Step>)
    requires Blocked(s, p)
    ensures Blocked(Run(s, steps), p)
    ensures Run(s, steps).periods[p].closed <==> s.periods[p].closed || BareCloseStep(p) in steps
  {
    hide Apply, Blocked;
    if steps != [] {
      var init, last := steps[..|steps| - 1], steps[|steps| - 1];
      assert steps == init + [last];
      OnlyBareCloseIff(s, p, init);
      ApplyBlocked(Run(s, init), p, last);
    }
  }

  lemma ApplyBlocked(s: Books, p: nat, step: Step)
    requires Blocked(s, p)
    ensures Blocked(Apply(s, step), p)
    ensures Apply(s, step).periods[p].closed <==> s.periods[p].closed || step == BareCloseStep(p)
  {
    hide PostJournal, CloseYear, Reverse, DraftAndPost, PostDocument, FiscalPeriodForDate, ValidateContext, NextFiscalPeriod;
    match step
    case DocumentStep(doc) => DocumentFrame(s, doc);
    case PostStep(id) => PostFrame(s, id);
    case ReverseStep(id, date) => ReverseGrows(s, id, date);
    case AdjustStep(id, date, lines, autoPost) =>
      if id < |s.journals| {
        DraftAndPostGrows(s, NewDraft(Adjusting, date, s.journals[id].currency, lines, Some(id)));
      }
    case CloseStep(q, currency) => CloseBlocked(s, p, q, currency);
    case PeriodStep(date, fiscalStart) =>
      var next := NextFiscalPeriod(s.periods[p].end);
      var r :| r in s.periods && r.start == next.start && r.end == next.end;
      assert r in Apply(s, step).periods;
    case BareCloseStep(q) => BareBlocked(s, p, q);
    case _ =>
  }

  lemma BareBlocked(s: Books, p: nat, q: nat)
    requires Blocked(s, p)
    ensures Blocked(ClosePeriod(s, q), p)
    ensures ClosePeriod(s, q).periods[p].closed <==> s.periods[p].closed || q == p
  {
    hide NextFiscalPeriod;
    var next := NextFiscalPeriod(s.periods[p].end);
    var k :| 0 <= k < |s.periods| && s.periods[k].start == next.start && s.periods[k].end == next.end;
    assert ClosePeriod(s, q).periods[k] in ClosePeriod(s, q).periods;
  }

  lemma CloseBlocked(s: Books, p: nat, q: nat, currency: string)
    requires Blocked(s, p)
    ensures Blocked(CloseYear(s, q, currency).0, p)
    ensures CloseYear(s, q, currency).0.periods[p].closed <==> s.periods[p].closed
  {
    hide CloseYear, NextFiscalPeriod, PostClosing;
    var next := NextFiscalPeriod(s.periods[p].end);
    var k :| 0 <= k < |s.periods| && s.periods[k].start == next.start && s.periods[k].end == next.end;
    CloseGrows(s, q, currency);
    var t := CloseYear(s, q, currency).0;
    assert t.periods[k] in t.periods;
    CloseLeavesOpen(s, p, q, currency);
  }

  lemma CloseLeavesOpen(s: Books, p: nat, q: nat, currency: string)
    requires Blocked(s, p)
    ensures p < |CloseYear(s, q, currency).0.periods|
    ensures CloseYear(s, q, currency).0.periods[p].closed <==> s.periods[p].closed
  {
    hide PostClosing, OpeningLines, NextFiscalPeriod, PeriodBalances, PeriodExists, ClosedOn, NewDraft;
    if CloseRefusal(s, q).None? {
      PostClosingRows(s, s.periods[q], FindRetained(s.chart).value.id, currency);
    }
  }
}
