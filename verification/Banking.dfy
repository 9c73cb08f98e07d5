/** Bank accounts, their stored balances, the transactions that should explain them, and the payments their deposits bring in. */
module Banking {
  import opened Wrappers
  import opened Sums
  import opened Money
  import opened Accounts
  import opened Ledger
  import opened Posting
  import opened Books
  import opened LedgerRuns

  datatype BankAccount = BankAccount(ledger: Option<string>, currency: string, opening: int, current: int, deleted: bool)

  /** Where a transaction comes from; at most one transaction per source once the unique index exists. */
  datatype Source = Source(kind: string, id: string)

  datatype Transaction = Transaction(
    account: string, date: int, amount: int, credit: bool, source: Option<Source>, hash: Option<string>)

  datatype DepositStatus = Undeposited | Partial | Deposited

  /** A payment, and how much of it its deposits have brought to a bank. */
  datatype Payment = Payment(amount: int, deposited: int, status: DepositStatus)

  /** One source of a deposit: a payment or a bare account; cash back is negative. */
  datatype Allocation = Allocation(account: string, payment: Option<string>, amount: int)

  datatype AllocationRow = AllocationRow(deposit: string, allocation: Allocation)

  /** `indexed` says whether the unique index over sources has been created. Transfers are known by number. */
  datatype Bank = Bank(
    accounts: map<string, BankAccount>, transactions: seq<Transaction>, transfers: set<string>,
    payments: map<string, Payment>, allocations: seq<AllocationRow>, books: Books, indexed: bool)

  datatype BankError =
    | AmountNotPositive | SameAccount | AccountMissing | Insufficient | SourceChanged | SourceAmbiguous | SourceTaken
    | AllocationInvalid | AllocationsDiffer | DepositedTwice | DepositedOutOfRange
    | LedgerRefused(why: Refusal)

  datatype BankOutcome = Recorded | AlreadyRecorded | Rejected(error: BankError)

  // ---- Recording one transaction ----

  function Open(s: Bank, id: string): Option<BankAccount> {
    if id in s.accounts && !s.accounts[id].deleted then Some(s.accounts[id]) else None
  }

  function OneOf(source: Option<Source>): Transaction -> int { (t: Transaction) => if t.source == source then 1 else 0 }

  function Matches(s: Bank, source: Option<Source>): int {
    if source.None? then 0 else Sum(s.transactions, OneOf(source))
  }

  function SourceIndex(ts: seq<Transaction>, source: Option<Source>): (k: nat)
    ensures k <= |ts| && (k < |ts| ==> ts[k].source == source)
  {
    if ts == [] then 0
    else
      var k := SourceIndex(ts[..|ts| - 1], source);
      if k < |ts| - 1 then k else if ts[|ts| - 1].source == source then |ts| - 1 else |ts|
  }

  predicate SameTransaction(t: Transaction, u: Transaction) {
    && t.account == u.account && t.amount == u.amount && t.credit == u.credit && t.date == u.date
    && (u.hash.None? || t.hash.None? || t.hash == u.hash)
  }

  function Delta(t: Transaction): int { if t.credit then t.amount else -t.amount }

  function Moved(s: Bank, id: string, delta: int): map<string, BankAccount>
    requires id in s.accounts
  {
    s.accounts[id := s.accounts[id].(current := s.accounts[id].current + delta)]
  }

  /** A known source is confirmed, adopting its hash; a new one moves the balance by its amount. */
  function Record(s: Bank, input: Transaction): (Bank, BankOutcome) {
    var t := input.(amount := Abs(input.amount));
    var matches := Matches(s, t.source);
    var k := SourceIndex(s.transactions, t.source);
    if t.amount == 0 then (s, Rejected(AmountNotPositive))
    else if matches > 1 then (s, Rejected(SourceAmbiguous))
    else if matches == 1 && k < |s.transactions| then
      var known := s.transactions[k];
      if !SameTransaction(known, t) then (s, Rejected(SourceChanged))
      else
        var adopted := if known.hash.None? then known.(hash := t.hash) else known;
        (s.(transactions := s.transactions[k := adopted]), AlreadyRecorded)
    else if Open(s, t.account).None? then (s, Rejected(AccountMissing))
    else
      (s.(transactions := s.transactions + [t], accounts := Moved(s, t.account, Delta(t))), Recorded)
  }

  // ---- Replacing the allocations of a deposit ----

  function NotOf(deposit: string): AllocationRow -> bool { (r: AllocationRow) => r.deposit != deposit }
  function RowFor(deposit: string): Allocation -> AllocationRow { (a: Allocation) => AllocationRow(deposit, a) }

  function Allocated(): Allocation -> int { (a: Allocation) => a.amount }
  function FromPayment(payment: string): Allocation -> int {
    (a: Allocation) => if a.payment == Some(payment) then a.amount else 0
  }
  function RowFromPayment(payment: string): AllocationRow -> int {
    (r: AllocationRow) => if r.allocation.payment == Some(payment) then r.allocation.amount else 0
  }

  /** The rows of the deposit deleted and the new ones inserted. */
  function Replaced(rows: seq<AllocationRow>, deposit: string, allocations: seq<Allocation>): seq<AllocationRow> {
    Filter(rows, NotOf(deposit)) + Map(allocations, RowFor(deposit))
  }

  function DepositedTotal(rows: seq<AllocationRow>, payment: string): int { Sum(rows, RowFromPayment(payment)) }

  function PaymentsOf(rows: seq<AllocationRow>, deposit: string): set<string> {
    set r | r in rows && r.deposit == deposit && r.allocation.payment.Some? :: r.allocation.payment.value
  }

  /** The payments whose stored totals a replacement recomputes: those of the old rows and those of the new. */
  function Touched(rows: seq<AllocationRow>, deposit: string, allocations: seq<Allocation>): set<string> {
    PaymentsOf(rows, deposit) + PaymentsOf(Replaced(rows, deposit, allocations), deposit)
  }

  function StatusOf(total: int, amount: int): DepositStatus {
    if total == 0 then Undeposited else if total >= amount then Deposited else Partial
  }

  /** The constraints of the allocation table. */
  predicate AllocationSound(s: Bank, a: Allocation) {
    a.amount != 0 && Find(s.books.chart, a.account).Some? && (a.payment.Some? ==> a.payment.value in s.payments)
  }

  /** The constraint of the payment table on the total stored with a payment. */
  predicate DepositedInRange(total: int, amount: int) { 0 <= total <= amount }

  /** `amount` is that of the bank transaction; the function's own checks allow one unit more or less. */
  function AllocationRefusal(s: Bank, deposit: string, amount: int, allocations: seq<Allocation>): Option<BankError> {
    var rows, touched := Replaced(s.allocations, deposit, allocations), Touched(s.allocations, deposit, allocations);
    if exists a :: a in allocations && !AllocationSound(s, a) then Some(AllocationInvalid)
    else if Abs(Sum(allocations, Allocated()) - amount) > 1 then Some(AllocationsDiffer)
    else if exists p :: p in s.payments && DepositedTotal(rows, p) > s.payments[p].amount + 1 then Some(DepositedTwice)
    else if exists p :: p in s.payments && p in touched && !DepositedInRange(DepositedTotal(rows, p), s.payments[p].amount)
      then Some(DepositedOutOfRange)
    else None
  }

  function Restated(payments: map<string, Payment>, rows: seq<AllocationRow>, touched: set<string>): map<string, Payment> {
    map p | p in payments ::
      if p in touched
      then Payment(payments[p].amount, DepositedTotal(rows, p), StatusOf(DepositedTotal(rows, p), payments[p].amount))
      else payments[p]
  }

  /** All of it happens or nothing does. */
  function ReplaceAllocations(s: Bank, deposit: string, amount: int, allocations: seq<Allocation>): (Bank, Option<BankError>) {
    var refusal := AllocationRefusal(s, deposit, amount, allocations);
    var rows := Replaced(s.allocations, deposit, allocations);
    if refusal.Some? then (s, refusal)
    else
      (s.(allocations := rows, payments := Restated(s.payments, rows, Touched(s.allocations, deposit, allocations))), None)
  }

  // ---- Deposits ----

  datatype Deposit = Deposit(
    id: string, account: string, date: int, amount: int, lookup: real, rate: Option<real>, currency: Option<string>,
    hash: Option<string>, offsets: seq<PostingLine>, allocations: Option<seq<Allocation>>)

  function DepositTransaction(d: Deposit): Transaction {
    Transaction(d.account, d.date, d.amount, true, Some(Source("QUICKBOOKS_DEPOSIT", d.id)), d.hash)
  }

  function DepositDocument(d: Deposit, account: BankAccount, ledger: string): Document {
    Document("DEPOSIT", d.id, d.date, if d.currency.Some? then d.currency.value else account.currency, d.lookup,
             [PostingLine(ledger, d.amount, 0, None, d.rate)] + d.offsets)
  }

  /** What was written before stays when the ledger then refuses the entry. */
  function PostTo(s: Bank, doc: Document, outcome: BankOutcome): (Bank, BankOutcome) {
    var (books, posted) := PostDocument(s.books, doc);
    (s.(books := books), if posted.Refused? then Rejected(LedgerRefused(posted.why)) else outcome)
  }

  /**
   The transaction and the balance come first, then the allocations, which must come to
   the transaction's amount, then the entry; a refusal leaves what came before it.
   */
  function CreateDeposit(s: Bank, d: Deposit): (Bank, BankOutcome) {
    if d.account !in s.accounts then (s, Rejected(AccountMissing))
    else
      var account := s.accounts[d.account];
      var (recorded, outcome) := Record(s, DepositTransaction(d));
      if outcome.Rejected? then (recorded, outcome)
      else
        var (replaced, refusal) :=
          if d.allocations.None? then (recorded, None)
          else ReplaceAllocations(recorded, d.id, Abs(d.amount), d.allocations.value);
        if refusal.Some? then (recorded, Rejected(refusal.value))
        else if account.ledger.None? then (replaced, outcome)
        else PostTo(replaced, DepositDocument(d, account, account.ledger.value), outcome)
  }

  // ---- Transfers ----

  datatype Transfer = Transfer(no: string, from: string, to: string, date: int, amount: int, lookup: real)

  function TransferRows(x: Transfer): seq<Transaction> {
    var source := Some(Source("BANK_TRANSFER", x.no));
    [Transaction(x.from, x.date, x.amount, false, source, None), Transaction(x.to, x.date, x.amount, true, source, None)]
  }

  function TransferDocument(x: Transfer, from: BankAccount, fromLedger: string, toLedger: string): Document {
    Document("BANK_TRANSFER", x.no, x.date, from.currency, x.lookup,
             [PostingLine(toLedger, x.amount, 0, None, None), PostingLine(fromLedger, 0, x.amount, None, None)])
  }

  function CheckTransfer(s: Bank, x: Transfer): Option<BankError> {
    if x.from == x.to then Some(SameAccount)
    else if x.amount <= 0 then Some(AmountNotPositive)
    else if Open(s, x.from).None? || Open(s, x.to).None? then Some(AccountMissing)
    else if s.accounts[x.from].current < x.amount then Some(Insufficient)
    else None
  }

  /** A transfer whose number has not been used: the only kind that moves money. */
  predicate NewTransfer(s: Bank, x: Transfer) { CheckTransfer(s, x).None? && x.no !in s.transfers }

  function MoveMoney(s: Bank, x: Transfer): Bank
    requires x.from in s.accounts && x.to in s.accounts
  {
    var debited := s.(accounts := Moved(s, x.from, -x.amount), transfers := s.transfers + {x.no});
    debited.(accounts := Moved(debited, x.to, x.amount))
  }

  /**
   The balances move first and the two transactions follow in one insert. They
   share their source, so the unique index refuses them after the money has moved.
   */
  function CreateTransfer(s: Bank, x: Transfer): (Bank, BankOutcome) {
    var refusal := CheckTransfer(s, x);
    if refusal.Some? then (s, Rejected(refusal.value))
    else
      var (from, to) := (s.accounts[x.from], s.accounts[x.to]);
      if x.no !in s.transfers && s.indexed then (MoveMoney(s, x), Rejected(SourceTaken))
      else
        var (moved, outcome) :=
          if x.no in s.transfers then (s, AlreadyRecorded)
          else (MoveMoney(s, x).(transactions := s.transactions + TransferRows(x)), Recorded);
        if from.ledger.None? || to.ledger.None? then (moved, outcome)
        else PostTo(moved, TransferDocument(x, from, from.ledger.value, to.ledger.value), outcome)
  }

  // ---- The stored balance against the transactions ----

  function EffectOn(id: string): Transaction -> int { (t: Transaction) => if t.account == id then Delta(t) else 0 }

  /** How far the stored balance is from the opening balance plus credits less debits. */
  function Drift(s: Bank, id: string): int
    requires id in s.accounts
  {
    s.accounts[id].current - s.accounts[id].opening - Sum(s.transactions, EffectOn(id))
  }

  /** A payment as it is first stored. */
  function AddPayment(s: Bank, id: string, amount: int): Bank {
    if id in s.payments || amount < 0 then s else s.(payments := s.payments[id := Payment(amount, 0, Undeposited)])
  }

  datatype BankStep =
    | RecordStep(input: Transaction)
    | DepositStep(deposit: Deposit)
    | TransferStep(transfer: Transfer)
    | PaymentStep(payment: string, amount: int)

  function Take(s: Bank, step: BankStep): Bank {
    match step
    case RecordStep(input) => Record(s, input).0
    case DepositStep(d) => CreateDeposit(s, d).0
    case TransferStep(x) => CreateTransfer(s, x).0
    case PaymentStep(id, amount) => AddPayment(s, id, amount)
  }

  function TakeAll(s: Bank, steps: seq<BankStep>): Bank {
    if steps == [] then s else Take(TakeAll(s, steps[..|steps| - 1]), steps[|steps| - 1])
  }

  /** Money a step moves without recording a transaction for it. */
  function Unrecorded(s: Bank, step: BankStep, id: string): int {
    if step.TransferStep? && s.indexed && NewTransfer(s, step.transfer) then
      if id == step.transfer.to then step.transfer.amount
      else if id == step.transfer.from then -step.transfer.amount
      else 0
    else 0
  }

  function AllUnrecorded(s: Bank, steps: seq<BankStep>, id: string): int {
    if steps == [] then 0
    else
      var init := steps[..|steps| - 1];
      AllUnrecorded(s, init, id) + Unrecorded(TakeAll(s, init), steps[|steps| - 1], id)
  }

  /** Accounts are only ever updated, and used numbers and the index stay. */
  predicate Evolves(s: Bank, t: Bank) {
    && s.accounts.Keys == t.accounts.Keys && s.indexed == t.indexed && s.transfers <= t.transfers
    && forall id :: id in s.accounts ==> t.accounts[id] == s.accounts[id].(current := t.accounts[id].current)
  }

  lemma AdoptedEffect(ts: seq<Transaction>, k: nat, hash: Option<string>, id: string)
    requires k < |ts|
    ensures Sum(ts[k := ts[k].(hash := hash)], EffectOn(id)) == Sum(ts, EffectOn(id))
  {
    var u := ts[k].(hash := hash);
    assert ts == (ts[..k] + [ts[k]]) + ts[k + 1..] && ts[k := u] == (ts[..k] + [u]) + ts[k + 1..];
    SumAppend(ts[..k] + [ts[k]], ts[k + 1..], EffectOn(id));
    SumAppend(ts[..k] + [u], ts[k + 1..], EffectOn(id));
    SumStep(ts[..k], ts[k], EffectOn(id));
    SumStep(ts[..k], u, EffectOn(id));
  }

  lemma RecordDrift(s: Bank, input: Transaction, id: string)
    requires id in s.accounts
    ensures Evolves(s, Record(s, input).0) && Drift(Record(s, input).0, id) == Drift(s, id)
  {
    hide Matches, SameTransaction, Abs;
    var (t, outcome) := Record(s, input);
    if outcome.AlreadyRecorded? {
      var k := SourceIndex(s.transactions, input.source);
      AdoptedEffect(s.transactions, k, t.transactions[k].hash, id);
    } else if outcome.Recorded? {
      SumStep(s.transactions, input.(amount := Abs(input.amount)), EffectOn(id));
    }
  }

  lemma PostToKeeps(s: Bank, doc: Document, outcome: BankOutcome)
    ensures PostTo(s, doc, outcome).0 == s.(books := PostTo(s, doc, outcome).0.books)
  {
  }

  /** A transfer's effect on the bank tables; whatever is posted besides goes to the books. */
  function Transferred(s: Bank, x: Transfer): Bank {
    if !NewTransfer(s, x) then s
    else if s.indexed then MoveMoney(s, x)
    else MoveMoney(s, x).(transactions := s.transactions + TransferRows(x))
  }

  lemma TransferShape(s: Bank, x: Transfer)
    ensures CreateTransfer(s, x).0 == Transferred(s, x).(books := CreateTransfer(s, x).0.books)
  {
    hide PostTo, MoveMoney, TransferRows, TransferDocument;
    if CheckTransfer(s, x).None? {
      var from, to := s.accounts[x.from], s.accounts[x.to];
      if from.ledger.Some? && to.ledger.Some? {
        var doc := TransferDocument(x, from, from.ledger.value, to.ledger.value);
        PostToKeeps(s, doc, AlreadyRecorded);
        PostToKeeps(MoveMoney(s, x).(transactions := s.transactions + TransferRows(x)), doc, Recorded);
      }
    }
  }

  lemma DepositShape(s: Bank, d: Deposit)
    ensures var t := CreateDeposit(s, d).0;
      t == s || t == Record(s, DepositTransaction(d)).0.(books := t.books, allocations := t.allocations, payments := t.payments)
  {
    hide PostTo, Record, AllocationRefusal, Replaced, Restated;
    if d.account in s.accounts && s.accounts[d.account].ledger.Some? {
      var (recorded, outcome) := Record(s, DepositTransaction(d));
      var replaced := if d.allocations.None? then recorded
        else ReplaceAllocations(recorded, d.id, Abs(d.amount), d.allocations.value).0;
      PostToKeeps(replaced, DepositDocument(d, s.accounts[d.account], s.accounts[d.account].ledger.value), outcome);
    }
  }

  lemma MoneyMoved(s: Bank, x: Transfer)
    requires x.from in s.accounts && x.to in s.accounts && x.from != x.to
    ensures var t := MoveMoney(s, x);
      && t == s.(accounts := t.accounts, transfers := s.transfers + {x.no})
      && t.accounts.Keys == s.accounts.Keys
      && forall id :: id in s.accounts ==>
           t.accounts[id] == s.accounts[id].(current := s.accounts[id].current
             + if id == x.to then x.amount else if id == x.from then -x.amount else 0)
  {
  }

  lemma TransferDrift(s: Bank, x: Transfer, id: string)
    requires id in s.accounts
    ensures Evolves(s, CreateTransfer(s, x).0)
    ensures Drift(CreateTransfer(s, x).0, id) == Drift(s, id) + Unrecorded(s, TransferStep(x), id)
  {
    hide CreateTransfer, CheckTransfer, MoveMoney, Moved;
    TransferShape(s, x);
    if NewTransfer(s, x) {
      NewTransferMoves(s, x);
      MoneyMoved(s, x);
      var rows := TransferRows(x);
      assert rows == [rows[0], rows[1]];
      SumAppend(s.transactions, rows, EffectOn(id));
      SumOfTwo(rows[0], rows[1], EffectOn(id));
    }
  }

  /** The exact law of a step: the balance drifts by what it moves unrecorded, and by nothing else. */
  lemma StepDrift(s: Bank, step: BankStep, id: string)
    requires id in s.accounts
    ensures Evolves(s, Take(s, step)) && Drift(Take(s, step), id) == Drift(s, id) + Unrecorded(s, step, id)
  {
    hide Record, CreateDeposit, CreateTransfer, Drift, Evolves;
    match step
    case RecordStep(input) => RecordDrift(s, input, id);
    case PaymentStep(payment, amount) => PaymentDrift(s, payment, amount, id);
    case TransferStep(x) => TransferDrift(s, x, id);
    case DepositStep(d) =>
      RecordDrift(s, DepositTransaction(d), id);
      DepositShape(s, d);
      SameDrift(s, Record(s, DepositTransaction(d)).0, CreateDeposit(s, d).0, id);
  }

  lemma PaymentDrift(s: Bank, payment: string, amount: int, id: string)
    requires id in s.accounts
    ensures Evolves(s, AddPayment(s, payment, amount)) && Drift(AddPayment(s, payment, amount), id) == Drift(s, id)
  {
  }

  lemma SameDrift(s: Bank, recorded: Bank, t: Bank, id: string)
    requires id in s.accounts && Evolves(s, recorded)
    requires t == s || t == recorded.(books := t.books, allocations := t.allocations, payments := t.payments)
    ensures Evolves(s, t) && Drift(t, id) == if t == s then Drift(s, id) else Drift(recorded, id)
  {
  }

  /** Over every run: stored balance = opening + credits - debits + money moved by transfers the index refused. */
  lemma {:induction false} RunDriftIs(s: Bank, steps: seq<BankStep>, id: string)
    requires id in s.accounts
    ensures Evolves(s, TakeAll(s, steps))
    ensures Drift(TakeAll(s, steps), id) == Drift(s, id) + AllUnrecorded(s, steps, id)
  {
    hide Drift, Take, Unrecorded;
    if steps != [] {
      var init := steps[..|steps| - 1];
      RunDriftIs(s, init, id);
      StepDrift(TakeAll(s, init), steps[|steps| - 1], id);
    }
  }

  ghost predicate Agrees(s: Bank) { forall id :: id in s.accounts ==> Drift(s, id) == 0 }

  /**
   A step keeps every stored balance equal to its opening balance plus credits
   less debits, except a transfer under a new number while the unique index exists.
   */
  lemma StepAgreesIff(s: Bank, step: BankStep)
    requires Agrees(s)
    ensures Agrees(Take(s, step)) <==> !(step.TransferStep? && s.indexed && NewTransfer(s, step.transfer))
  {
    hide Take, Drift, NewTransfer;
    forall id | id in s.accounts
      ensures Evolves(s, Take(s, step)) && Drift(Take(s, step), id) == Unrecorded(s, step, id)
    {
      StepDrift(s, step, id);
    }
    SameAccounts(s, step);
    if step.TransferStep? && s.indexed && NewTransfer(s, step.transfer) {
      NewTransferMoves(s, step.transfer);
      assert Drift(Take(s, step), step.transfer.to) != 0;
    }
  }

  lemma SameAccounts(s: Bank, step: BankStep)
    ensures Take(s, step).accounts.Keys == s.accounts.Keys
  {
    hide Matches, SameTransaction, CheckTransfer, CreateTransfer, CreateDeposit;
    match step
    case TransferStep(x) =>
      TransferShape(s, x);
      if NewTransfer(s, x) { NewTransferMoves(s, x); }
    case DepositStep(d) => DepositShape(s, d);
    case _ =>
  }

  lemma NewTransferMoves(s: Bank, x: Transfer)
    requires NewTransfer(s, x)
    ensures x.from != x.to && x.amount > 0 && x.from in s.accounts && x.to in s.accounts
    ensures s.accounts[x.from].current >= x.amount
  {
  }

  // ---- Transfers conserve money and happen once ----

  /**
   A transfer takes from its source what it gives to its destination, leaves
   other accounts alone, never overdraws, and under a used number moves nothing.
   */
  lemma TransferConserves(s: Bank, x: Transfer, id: string)
    requires id in s.accounts
    ensures var t := CreateTransfer(s, x).0;
      && id in t.accounts
      && t.accounts[id].current - s.accounts[id].current
         == (if !NewTransfer(s, x) then 0 else if id == x.to then x.amount else if id == x.from then -x.amount else 0)
      && (NewTransfer(s, x) ==> t.accounts[x.from].current >= 0 && x.no in t.transfers)
      && (s.accounts[id].current >= 0 ==> t.accounts[id].current >= 0)
  {
    hide CreateTransfer, CheckTransfer;
    TransferShape(s, x);
    if NewTransfer(s, x) { NewTransferMoves(s, x); }
  }

  /** Once a number has been used, no later transfer under it moves money, whatever ran in between. */
  lemma RepeatMovesNothing(s: Bank, x: Transfer, steps: seq<BankStep>, again: Transfer, id: string)
    requires NewTransfer(s, x) && again.no == x.no && id in s.accounts
    ensures var t := TakeAll(CreateTransfer(s, x).0, steps);
      && id in t.accounts && id in CreateTransfer(t, again).0.accounts
      && CreateTransfer(t, again).0.accounts[id].current == t.accounts[id].current
  {
    hide CreateTransfer, Take, Drift;
    TransferConserves(s, x, id);
    var t := CreateTransfer(s, x).0;
    RunDriftIs(t, steps, id);
    TransferConserves(TakeAll(t, steps), again, id);
    UsedNumber(TakeAll(t, steps), again);
  }

  lemma UsedNumber(s: Bank, x: Transfer)
    requires x.no in s.transfers
    ensures !NewTransfer(s, x)
  {
  }

  // ---- A source is recorded once ----

  predicate KnownSource(s: Bank, source: Option<Source>) { source.Some? && Matches(s, source) >= 1 }

  lemma KnownSourceMovesNothing(s: Bank, input: Transaction)
    requires KnownSource(s, input.source)
    ensures Record(s, input).0.accounts == s.accounts && |Record(s, input).0.transactions| == |s.transactions|
  {
    IndexOfKnown(s.transactions, input.source);
  }

  lemma {:induction false} IndexOfKnown(ts: seq<Transaction>, source: Option<Source>)
    ensures Sum(ts, OneOf(source)) >= 1 ==> SourceIndex(ts, source) < |ts|
    ensures Sum(ts, OneOf(source)) >= 0
  {
    if ts != [] { IndexOfKnown(ts[..|ts| - 1], source); }
  }

  lemma SourcesStay(s: Bank, step: BankStep, source: Option<Source>)
    requires KnownSource(s, source)
    ensures KnownSource(Take(s, step), source)
  {
    hide Record, CreateDeposit, CreateTransfer, NewTransfer;
    match step
    case RecordStep(input) => RecordStays(s, input, source);
    case DepositStep(d) =>
      RecordStays(s, DepositTransaction(d), source);
      DepositShape(s, d);
    case TransferStep(x) =>
      TransferShape(s, x);
      SumAppend(s.transactions, TransferRows(x), OneOf(source));
      SumNonNegative(TransferRows(x), OneOf(source));
    case PaymentStep(_, _) =>
  }

  lemma RecordStays(s: Bank, input: Transaction, source: Option<Source>)
    requires KnownSource(s, source)
    ensures KnownSource(Record(s, input).0, source)
  {
    hide SameTransaction;
    var (t, outcome) := Record(s, input);
    if outcome.AlreadyRecorded? {
      var k := SourceIndex(s.transactions, input.source);
      var ts, u := s.transactions, t.transactions[k];
      assert ts == (ts[..k] + [ts[k]]) + ts[k + 1..] && t.transactions == (ts[..k] + [u]) + ts[k + 1..];
      SumAppend(ts[..k] + [ts[k]], ts[k + 1..], OneOf(source));
      SumAppend(ts[..k] + [u], ts[k + 1..], OneOf(source));
      SumStep(ts[..k], ts[k], OneOf(source));
      SumStep(ts[..k], u, OneOf(source));
    } else if outcome.Recorded? {
      SumStep(s.transactions, input.(amount := Abs(input.amount)), OneOf(source));
    }
  }

  lemma {:induction false} SourcesStayKnown(s: Bank, steps: seq<BankStep>, source: Option<Source>)
    requires KnownSource(s, source)
    ensures KnownSource(TakeAll(s, steps), source)
  {
    hide KnownSource, Take;
    if steps != [] {
      SourcesStayKnown(s, steps[..|steps| - 1], source);
      SourcesStay(TakeAll(s, steps[..|steps| - 1]), steps[|steps| - 1], source);
    }
  }

  /** Once a transaction with a source is recorded, repeating its source never moves money again. */
  lemma SourceMovesOnce(s: Bank, input: Transaction, steps: seq<BankStep>, again: Transaction)
    requires Record(s, input).1.Recorded? && input.source.Some? && again.source == input.source
    ensures var t := TakeAll(Record(s, input).0, steps);
      Record(t, again).0.accounts == t.accounts && |Record(t, again).0.transactions| == |t.transactions|
  {
    hide Take, KnownSource, TakeAll;
    var t := Record(s, input).0;
    RecordedSourceIsKnown(s, input);
    SourcesStayKnown(t, steps, input.source);
    KnownSourceMovesNothing(TakeAll(t, steps), again);
  }

  lemma RecordedSourceIsKnown(s: Bank, input: Transaction)
    requires Record(s, input).1.Recorded? && input.source.Some?
    ensures KnownSource(Record(s, input).0, input.source)
  {
    SumStep(s.transactions, input.(amount := Abs(input.amount)), OneOf(input.source));
    IndexOfKnown(s.transactions, input.source);
  }

  // ---- The ledger and the stored balances ----

  lemma TransferDocumentMoves(x: Transfer, from: BankAccount, fromLedger: string, toLedger: string, account: string, w: Window)
    requires x.amount > 0 && fromLedger != toLedger && Within(w, x.date)
    ensures Movement(DocumentRows(TransferDocument(x, from, fromLedger, toLedger)), account, w)
         == if account == toLedger then x.amount else if account == fromLedger then -x.amount else 0
  {
    hide Group;
    var doc := TransferDocument(x, from, fromLedger, toLedger);
    GroupOfTwo(doc.lines);
    DocumentMovement(doc, account, w);
    assert doc.lines == [doc.lines[0], doc.lines[1]];
    SumOfTwo(doc.lines[0], doc.lines[1], NetOn(account));
  }

  /** Both bank accounts exist, each with a ledger account of its own. */
  predicate HaveLedgers(s: Bank, x: Transfer) {
    && x.from in s.accounts && x.to in s.accounts
    && s.accounts[x.from].ledger.Some? && s.accounts[x.to].ledger.Some?
    && s.accounts[x.from].ledger != s.accounts[x.to].ledger
  }

  function TransferEntry(s: Bank, x: Transfer): Document
    requires HaveLedgers(s, x)
  {
    TransferDocument(x, s.accounts[x.from], s.accounts[x.from].ledger.value, s.accounts[x.to].ledger.value)
  }

  /** The call gets as far as the ledger, has no entry there yet, and is not refused one. */
  predicate PostsEntry(s: Bank, x: Transfer)
    requires HaveLedgers(s, x)
  {
    && CheckTransfer(s, x).None? && !(s.indexed && NewTransfer(s, x))
    && !HasOrigin(s.books.rows, FromDocument("BANK_TRANSFER", x.no)) && !PostDocument(s.books, TransferEntry(s, x)).1.Refused?
  }

  lemma TransferBooks(s: Bank, x: Transfer)
    requires HaveLedgers(s, x)
    ensures CreateTransfer(s, x).0.books.rows
      == s.books.rows + if PostsEntry(s, x) then DocumentRows(TransferEntry(s, x)) else []
  {
    hide PostDocument, DocumentRows, HasOrigin;
    assert s.books.rows + [] == s.books.rows;
    var doc := TransferEntry(s, x);
    if PostsEntry(s, x) { FirstPostingAppends(s.books, doc); } else { NoNewRows(s.books, doc); }
  }

  lemma NoNewRows(s: Books, doc: Document)
    ensures HasOrigin(s.rows, FromDocument(doc.kind, doc.id)) || PostDocument(s, doc).1.Refused? ==> PostDocument(s, doc).0 == s
  {
    hide DocumentRows, HasOrigin, ValidateContext;
  }

  function Share(x: Transfer, id: string): int { if id == x.to then x.amount else -x.amount }

  /**
   What one call moves, whatever the state of the database: the ledger accounts by
   the amount if it posts an entry, the stored balances by the amount if its number
   is new. Under the unique index no call does both.
   */
  lemma TransferMovesLedger(s: Bank, x: Transfer, w: Window)
    requires HaveLedgers(s, x) && Within(w, x.date)
    ensures s.indexed ==> !(PostsEntry(s, x) && NewTransfer(s, x))
    ensures var t := CreateTransfer(s, x).0;
      forall id :: id in {x.from, x.to} ==>
        && id in t.accounts
        && t.accounts[id].current - s.accounts[id].current == (if NewTransfer(s, x) then Share(x, id) else 0)
        && Movement(t.books.rows, s.accounts[id].ledger.value, w) - Movement(s.books.rows, s.accounts[id].ledger.value, w)
           == (if PostsEntry(s, x) then Share(x, id) else 0)
  {
    hide CreateTransfer, DocumentRows, Movement, NewTransfer, PostsEntry;
    var t := CreateTransfer(s, x).0;
    TransferBooks(s, x);
    MovesOrPosts(s, x);
    forall id | id in {x.from, x.to}
      ensures id in t.accounts
      ensures t.accounts[id].current - s.accounts[id].current == if NewTransfer(s, x) then Share(x, id) else 0
      ensures Movement(t.books.rows, s.accounts[id].ledger.value, w) - Movement(s.books.rows, s.accounts[id].ledger.value, w)
        == if PostsEntry(s, x) then Share(x, id) else 0
    {
      TransferConserves(s, x, id);
      TransferEntryMoves(s, x, id, w);
    }
  }

  lemma MovesOrPosts(s: Bank, x: Transfer)
    requires HaveLedgers(s, x)
    ensures s.indexed ==> !(PostsEntry(s, x) && NewTransfer(s, x))
    ensures NewTransfer(s, x) || PostsEntry(s, x) ==> x.amount > 0 && x.from != x.to
  {
  }

  lemma TransferEntryMoves(s: Bank, x: Transfer, id: string, w: Window)
    requires HaveLedgers(s, x) && Within(w, x.date) && id in {x.from, x.to}
    ensures var ledger := s.accounts[id].ledger.value;
      Movement(CreateTransfer(s, x).0.books.rows, ledger, w) - Movement(s.books.rows, ledger, w)
        == if PostsEntry(s, x) then Share(x, id) else 0
  {
    hide CreateTransfer, DocumentRows, Movement, PostsEntry;
    var ledger := s.accounts[id].ledger.value;
    TransferBooks(s, x);
    MovesOrPosts(s, x);
    assert s.books.rows + [] == s.books.rows;
    if PostsEntry(s, x) {
      MovementAppend(s.books.rows, DocumentRows(TransferEntry(s, x)), ledger, w);
      TransferDocumentMoves(x, s.accounts[x.from], s.accounts[x.from].ledger.value, s.accounts[x.to].ledger.value, ledger, w);
    }
  }

  /** Under the unique index a new transfer moves its two balances, fails, and leaves no transaction and no ledger entry. */
  lemma RefusedTransferMovesMoney(s: Bank, x: Transfer)
    requires s.indexed && NewTransfer(s, x)
    ensures var (t, outcome) := CreateTransfer(s, x);
      && outcome == Rejected(SourceTaken) && t == MoveMoney(s, x)
      && t.transactions == s.transactions && t.books == s.books && x.no in t.transfers
      && x.from in t.accounts && t.accounts[x.from].current == s.accounts[x.from].current - x.amount
      && x.to in t.accounts && t.accounts[x.to].current == s.accounts[x.to].current + x.amount
  {
  }

  /**
   Repeating the failed transfer at once gets past its checks exactly when the
   source account held the amount twice.
   */
  lemma RetryNeedsTwice(s: Bank, x: Transfer)
    requires s.indexed && NewTransfer(s, x)
    ensures CheckTransfer(CreateTransfer(s, x).0, x).None? <==> s.accounts[x.from].current >= 2 * x.amount
  {
    hide CreateTransfer, MoveMoney;
    RefusedTransferMovesMoney(s, x);
    NewTransferMoves(s, x);
    MoneyMoved(s, x);
  }

  /**
   A later call under the failed number, whatever ran in between: it moves no
   balance and records no transaction, and it brings the ledger accounts to where
   the failed call left the balances exactly when it posts an entry of that amount.
   */
  lemma RetryMovesLedger(s: Bank, x: Transfer, steps: seq<BankStep>, again: Transfer, w: Window)
    requires s.indexed && NewTransfer(s, x) && HaveLedgers(s, x) && Within(w, again.date)
    requires again.no == x.no && again.from == x.from && again.to == x.to
    ensures var failed := CreateTransfer(s, x).0;
      var t := TakeAll(failed, steps);
      var u := CreateTransfer(t, again).0;
      && HaveLedgers(t, again) && u.transactions == t.transactions && u.accounts == t.accounts
      && forall id :: id in {x.from, x.to} ==>
           && id in failed.accounts
           && (Movement(u.books.rows, s.accounts[id].ledger.value, w) - Movement(t.books.rows, s.accounts[id].ledger.value, w)
                 == failed.accounts[id].current - s.accounts[id].current
               <==> PostsEntry(t, again) && again.amount == x.amount)
  {
    hide CreateTransfer, Movement, PostsEntry, Drift, Take, CheckTransfer;
    var failed := CreateTransfer(s, x).0;
    var t := TakeAll(failed, steps);
    var u := CreateTransfer(t, again).0;
    RefusedTransferMovesMoney(s, x);
    RunDriftIs(failed, steps, x.from);
    NewTransferMoves(s, x);
    MoneyMoved(s, x);
    UsedNumber(t, again);
    TransferShape(t, again);
    forall id | id in {x.from, x.to}
      ensures Movement(u.books.rows, s.accounts[id].ledger.value, w) - Movement(t.books.rows, s.accounts[id].ledger.value, w)
        == if PostsEntry(t, again) then Share(again, id) else 0
    {
      TransferEntryMoves(t, again, id, w);
    }
  }
}
