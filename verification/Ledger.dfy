/** Posted ledger rows, journal lines and the movements they carry. */
module Ledger {
  import opened Wrappers
  import opened Sums
  import opened Accounts

  /** A journal line, or any debit/credit pair on an account. */
  datatype Line = Line(account: string, debit: int, credit: int)

  /** Base-currency columns; journal rows leave them null. */
  datatype Base = NoBase | Base(debit: int, credit: int, rate: real)

  /** A posted row: from a journal, or from a source document. */
  datatype Origin = FromJournal(journal: nat) | FromDocument(kind: string, source: string)

  datatype Row = Row(account: string, date: int, debit: int, credit: int, currency: string, base: Base, origin: Origin)

  /** Inclusive date bounds; a missing bound is open. */
  datatype Window = Window(from: Option<int>, to: Option<int>)

  predicate Within(w: Window, date: int) {
    (w.from.Some? ==> w.from.value <= date) && (w.to.Some? ==> date <= w.to.value)
  }

  function AsOf(date: int): Window { Window(None, Some(date)) }

  // Weights of journal lines.
  function LineDebit(): Line -> int { (l: Line) => l.debit }
  function LineCredit(): Line -> int { (l: Line) => l.credit }
  function LineNet(): Line -> int { (l: Line) => l.debit - l.credit }
  function LineNetOn(account: string): Line -> int {
    (l: Line) => if l.account == account then l.debit - l.credit else 0
  }

  // Weights of ledger rows.
  function RowNetIn(w: Window): Row -> int {
    (r: Row) => if Within(w, r.date) then r.debit - r.credit else 0
  }
  function RowDebitOn(account: string, w: Window): Row -> int {
    (r: Row) => if r.account == account && Within(w, r.date) then r.debit else 0
  }
  function RowCreditOn(account: string, w: Window): Row -> int {
    (r: Row) => if r.account == account && Within(w, r.date) then r.credit else 0
  }
  function RowNetOn(account: string, w: Window): Row -> int {
    (r: Row) => if r.account == account && Within(w, r.date) then r.debit - r.credit else 0
  }
  function RowNetOfJournal(account: string, id: nat): Row -> int {
    (r: Row) => if r.account == account && r.origin == FromJournal(id) then r.debit - r.credit else 0
  }

  /** Debits less credits of one account over a window. */
  function Movement(rows: seq<Row>, account: string, w: Window): int {
    Sum(rows, RowNetOn(account, w))
  }

  function Net(rows: seq<Row>, w: Window): int {
    Sum(rows, RowNetIn(w))
  }

  lemma MovementIsDebitLessCredit(rows: seq<Row>, account: string, w: Window)
    ensures Movement(rows, account, w)
         == Sum(rows, RowDebitOn(account, w)) - Sum(rows, RowCreditOn(account, w))
  {
    SumAdd(rows, RowNetOn(account, w), RowCreditOn(account, w), RowDebitOn(account, w));
  }

  lemma MovementAppend(rows: seq<Row>, more: seq<Row>, account: string, w: Window)
    ensures Movement(rows + more, account, w) == Movement(rows, account, w) + Movement(more, account, w)
  {
    SumAppend(rows, more, RowNetOn(account, w));
  }

  lemma NetAppend(rows: seq<Row>, more: seq<Row>, w: Window)
    ensures Net(rows + more, w) == Net(rows, w) + Net(more, w)
  {
    SumAppend(rows, more, RowNetIn(w));
  }

  /** Rows that share one date move everything or nothing. */
  lemma MovementOfOneDate(rows: seq<Row>, account: string, w: Window, date: int)
    requires forall r :: r in rows ==> r.date == date
    ensures !Within(w, date) ==> Movement(rows, account, w) == 0
  {
    if !Within(w, date) { SumZero(rows, RowNetOn(account, w)); }
  }

  // ---- Balances per account, as aggregate_ledger_balances_for_report returns them ----

  datatype AccountBalance = AccountBalance(account: Account, debit: int, credit: int, balance: int)

  function BalanceOf(rows: seq<Row>, a: Account, w: Window): AccountBalance {
    var debit := Sum(rows, RowDebitOn(a.id, w));
    var credit := Sum(rows, RowCreditOn(a.id, w));
    AccountBalance(a, debit, credit, SignedBalance(debit, credit, a.normal))
  }

  /** The kinds of account a report asks for. */
  datatype Kinds = AllKinds | ProfitAndLossKinds | PermanentKinds

  predicate Asks(kinds: Kinds, kind: AccountType) {
    match kinds
    case AllKinds => true
    case ProfitAndLossKinds => IsProfitAndLoss(kind)
    case PermanentKinds => !IsProfitAndLoss(kind)
  }

  function Reported(kinds: Kinds): Account -> bool {
    (a: Account) => a.Listed() && Asks(kinds, a.kind)
  }
  function BalanceIn(rows: seq<Row>, w: Window): Account -> AccountBalance {
    (a: Account) => BalanceOf(rows, a, w)
  }

  /** One balance per listed account of the wanted kinds, in chart order. */
  function Aggregate(chart: seq<Account>, rows: seq<Row>, w: Window, kinds: Kinds): seq<AccountBalance> {
    Map(Filter(chart, Reported(kinds)), BalanceIn(rows, w))
  }

  lemma BalanceIsMovement(rows: seq<Row>, a: Account, w: Window)
    ensures BalanceOf(rows, a, w).balance
         == (if a.normal.Debit? then Movement(rows, a.id, w) else -Movement(rows, a.id, w))
  {
    MovementIsDebitLessCredit(rows, a.id, w);
  }
}
