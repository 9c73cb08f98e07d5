/** What recording, transferring and depositing leave in the bank tables, case by case, and the rows of their entries. */
module BankRecords {
  import opened Wrappers
  import opened Sums
  import opened Money
  import opened Accounts
  import opened Ledger
  import opened Posting
  import opened Books
  import opened LedgerRuns
  import opened Banking
  import opened Deposits

  function Size(amount: int): int { if amount < 0 then -amount else amount }

  ghost predicate Active(s: Bank, id: string) { id in s.accounts && !s.accounts[id].deleted }

  /** The balance after a transaction of this size. */
  function Balanced(s: Bank, input: Transaction): map<string, BankAccount>
    requires input.account in s.accounts
  {
    var account := s.accounts[input.account];
    var after := if input.credit then account.current + Size(input.amount) else account.current - Size(input.amount);
    s.accounts[input.account := account.(current := after)]
  }

  lemma {:induction false} NoneOfSource(ts: seq<Transaction>, source: Option<Source>)
    requires forall t :: t in ts ==> t.source != source
    ensures Sum(ts, OneOf(source)) == 0
  {
    SumZero(ts, OneOf(source));
  }

  lemma OneOfSource(ts: seq<Transaction>, source: Option<Source>, k: nat)
    requires k < |ts| && ts[k].source == source && forall i :: 0 <= i < |ts| && i != k ==> ts[i].source != source
    ensures Sum(ts, OneOf(source)) == 1 && SourceIndex(ts, source) == k
  {
    hide Sum;
    assert ts == (ts[..k] + [ts[k]]) + ts[k + 1..];
    SumAppend(ts[..k] + [ts[k]], ts[k + 1..], OneOf(source));
    SumStep(ts[..k], ts[k], OneOf(source));
    NoneOfSource(ts[..k], source);
    NoneOfSource(ts[k + 1..], source);
    OneIsFound(ts, source, k);
  }

  lemma TwoOfSource(ts: seq<Transaction>, source: Option<Source>, i: nat, k: nat)
    requires i < k < |ts| && ts[i].source == source == ts[k].source
    ensures Sum(ts, OneOf(source)) >= 2
  {
    hide Sum;
    assert ts == (ts[..k] + [ts[k]]) + ts[k + 1..];
    SumAppend(ts[..k] + [ts[k]], ts[k + 1..], OneOf(source));
    SumStep(ts[..k], ts[k], OneOf(source));
    OneIsFound(ts[..k], source, i);
    SumNonNegative(ts[k + 1..], OneOf(source));
  }

  /** A transaction that is new, having no source or one that nothing stored has: it is stored by its size and moves the balance. */
  lemma RecordNew(s: Bank, input: Transaction)
    requires input.source.Some? ==> forall t :: t in s.transactions ==> t.source != input.source
    ensures Record(s, input) ==
      if input.amount == 0 then (s, Rejected(AmountNotPositive))
      else if !Active(s, input.account) then (s, Rejected(AccountMissing))
      else (s.(transactions := s.transactions + [input.(amount := Size(input.amount))], accounts := Balanced(s, input)), Recorded)
  {
    if input.source.Some? { NoneOfSource(s.transactions, input.source); }
  }

  /** The stored transaction says the same: account, size, direction and date, and the hash where both have one. */
  predicate Repeats(known: Transaction, input: Transaction) {
    && known.account == input.account && known.amount == Size(input.amount) && known.credit == input.credit
    && known.date == input.date
    && (known.hash.Some? && input.hash.Some? ==> known.hash.value == input.hash.value)
  }

  /** One whose source is stored once is confirmed if it says the same, lending its hash to a transaction without one, and refused if not. */
  lemma RecordAgain(s: Bank, input: Transaction, k: nat)
    requires input.amount != 0 && input.source.Some? && k < |s.transactions| && s.transactions[k].source == input.source
    requires forall i :: 0 <= i < |s.transactions| && i != k ==> s.transactions[i].source != input.source
    ensures var known := s.transactions[k];
      var hash := match known.hash case Some(h) => Some(h) case None => input.hash;
      Record(s, input) ==
        if Repeats(known, input) then (s.(transactions := s.transactions[k := known.(hash := hash)]), AlreadyRecorded)
        else (s, Rejected(SourceChanged))
  {
    OneOfSource(s.transactions, input.source, k);
  }

  /** One whose source is stored twice is refused, whatever it says. */
  lemma RecordAmbiguous(s: Bank, input: Transaction, i: nat, k: nat)
    requires input.amount != 0 && input.source.Some? && i < k < |s.transactions|
    requires s.transactions[i].source == input.source == s.transactions[k].source
    ensures Record(s, input) == (s, Rejected(SourceAmbiguous))
  {
    TwoOfSource(s.transactions, input.source, i, k);
  }

  // ---- Transfers ----

  /** Why a transfer does not get past its checks: the first of these reasons that holds. */
  lemma TransferRefusedIff(s: Bank, x: Transfer)
    ensures var refusal := CheckTransfer(s, x);
      var known := Active(s, x.from) && Active(s, x.to);
      && (refusal == Some(SameAccount) <==> x.from == x.to)
      && (refusal == Some(AmountNotPositive) <==> x.from != x.to && x.amount <= 0)
      && (refusal == Some(AccountMissing) <==> x.from != x.to && x.amount > 0 && !known)
      && (refusal == Some(Insufficient) <==> x.from != x.to && x.amount > 0 && known && s.accounts[x.from].current < x.amount)
      && (refusal == None <==> x.from != x.to && x.amount > 0 && known && s.accounts[x.from].current >= x.amount)
      && (refusal.Some? ==> CreateTransfer(s, x) == (s, Rejected(refusal.value)))
  {
  }

  /** A new transfer without the index: a debit and a credit of its amount, of its date and under its number, and both balances. */
  lemma TransferRecords(s: Bank, x: Transfer)
    requires CheckTransfer(s, x).None? && x.no !in s.transfers && !s.indexed
    ensures var (t, source) := (CreateTransfer(s, x).0, Some(Source("BANK_TRANSFER", x.no)));
      && t.transactions == s.transactions
           + [Transaction(x.from, x.date, x.amount, false, source, None), Transaction(x.to, x.date, x.amount, true, source, None)]
      && t.transfers == s.transfers + {x.no} && t.accounts.Keys == s.accounts.Keys
      && (forall id :: id in s.accounts ==>
            t.accounts[id] == s.accounts[id].(current := s.accounts[id].current
              + if id == x.to then x.amount else if id == x.from then -x.amount else 0))
      && t == s.(transactions := t.transactions, transfers := t.transfers, accounts := t.accounts, books := t.books)
  {
    hide CreateTransfer, MoveMoney, CheckTransfer;
    TransferShape(s, x);
    NewTransferMoves(s, x);
    MoneyMoved(s, x);
  }

  /** The rows of a transfer's entry are of its date, in the currency of the account it leaves, and at the looked-up rate. */
  lemma TransferRowsAre(s: Bank, x: Transfer)
    requires HaveLedgers(s, x) && PostsEntry(s, x) && x.lookup != 0.0
    ensures var (rows, after) := (s.books.rows, CreateTransfer(s, x).0.books.rows);
      && |rows| <= |after| && after[..|rows|] == rows
      && forall i :: |rows| <= i < |after| ==>
           && after[i].date == x.date && after[i].currency == s.accounts[x.from].currency
           && after[i].origin == FromDocument("BANK_TRANSFER", x.no)
           && after[i].base.Base? && after[i].base.rate == x.lookup
  {
    hide CreateTransfer, DocumentRows, PostDocument, Group;
    TransferBooks(s, x);
    var doc := TransferEntry(s, x);
    TransferOneSided(s, x);
    MovesAtRate(doc, x.lookup, "");
    forall row | row in DocumentRows(doc)
      ensures row.date == doc.date && row.currency == doc.currency && row.origin == FromDocument(doc.kind, doc.id)
    {
      RowIsConverted(doc, row);
    }
  }

  lemma TransferOneSided(s: Bank, x: Transfer)
    requires HaveLedgers(s, x) && CheckTransfer(s, x).None?
    ensures forall l :: l in TransferEntry(s, x).lines ==> OneSided(l.debit, l.credit) && l.rate == None
    ensures TransferEntry(s, x).lookup == x.lookup
  {
  }

  // ---- Payments ----

  /** A payment is stored once and never negative: with its amount, nothing of it deposited, and every other one as it was. */
  lemma PaymentStored(s: Bank, id: string, amount: int)
    ensures var t := AddPayment(s, id, amount);
      && t == s.(payments := t.payments)
      && (id in t.payments <==> id in s.payments || amount >= 0)
      && (id !in s.payments && amount >= 0 ==>
            var p := t.payments[id]; p.amount == amount && p.deposited == 0 && p.status == Undeposited)
      && (forall other :: other in s.payments ==> other in t.payments && t.payments[other] == s.payments[other])
      && (forall other :: other in t.payments && other != id ==> other in s.payments)
  {
  }

  // ---- Deposits ----

  predicate HasLedger(s: Bank, d: Deposit) { d.account in s.accounts && s.accounts[d.account].ledger.Some? }

  /** The deposit gets to the ledger, has no entry there yet, and is not refused one. */
  predicate PostsDeposit(s: Bank, d: Deposit) {
    && HasLedger(s, d) && !CreateDeposit(s, d).1.Rejected?
    && forall r :: r in s.books.rows ==> r.origin != FromDocument("DEPOSIT", d.id)
  }

  lemma DepositBooks(s: Bank, d: Deposit)
    requires PostsDeposit(s, d)
    ensures CreateDeposit(s, d).0.books == s.books.(rows := s.books.rows + DocumentRows(Deposits.EntryOf(s, d)))
  {
    hide DocumentRows, ValidateContext, ReplaceAllocations, Record, Group;
    var doc := Deposits.EntryOf(s, d);
    RecordSpares(s, DepositTransaction(d));
    if d.allocations.Some? {
      ReplaceSpares(Record(s, DepositTransaction(d)).0, d.id, Abs(d.amount), d.allocations.value);
    }
    FirstPostingAppends(s.books, doc);
  }

  /** What an offset puts on an account; one without a positive side is dropped. */
  function OffsetOn(account: string): PostingLine -> int {
    (l: PostingLine) => if l.account == account && (l.debit > 0 || l.credit > 0) then l.debit - l.credit else 0
  }

  /**
   Any deposit that posts, imported or not: the bank's ledger account takes its amount where
   that is positive and every account its offsets, in the deposit's currency or the bank
   account's where it names none, and on its date.
   */
  lemma DepositPosted(s: Bank, d: Deposit, account: string, w: Window)
    requires PostsDeposit(s, d)
    ensures var (rows, after) := (s.books.rows, CreateDeposit(s, d).0.books.rows);
      var bank := s.accounts[d.account];
      var currency := match d.currency case Some(c) => c case None => bank.currency;
      && Movement(after, account, w) - Movement(rows, account, w)
         == OnIf(Within(w, d.date), OnIf(bank.ledger == Some(account) && d.amount > 0, d.amount) + Sum(d.offsets, OffsetOn(account)))
      && |rows| <= |after| && after[..|rows|] == rows
      && forall i :: |rows| <= i < |after| ==>
           after[i].date == d.date && after[i].currency == currency && after[i].origin == FromDocument("DEPOSIT", d.id)
  {
    hide CreateDeposit, DocumentRows, Group, Movement, Sum;
    var doc := Deposits.EntryOf(s, d);
    DepositBooks(s, d);
    MovementAppend(s.books.rows, DocumentRows(doc), account, w);
    DocumentMovement(doc, account, w);
    GroupKeepsSum(doc.lines, NetOn(account));
    EntrySum(s, d, KeptOnly(NetOn(account)));
    BankLineOn(s, d, account);
    SumSame(d.offsets, KeptOnly(NetOn(account)), OffsetOn(account));
    forall row | row in DocumentRows(doc)
      ensures row.date == doc.date && row.currency == doc.currency && row.origin == FromDocument(doc.kind, doc.id)
    {
      RowIsConverted(doc, row);
    }
  }

  lemma BankLineOn(s: Bank, d: Deposit, account: string)
    requires HasLedger(s, d)
    ensures KeptOnly(NetOn(account))(BankLine(s, d)) == OnIf(s.accounts[d.account].ledger == Some(account) && d.amount > 0, d.amount)
  {
    var line := BankLine(s, d);
    assert line.credit == 0 && line.debit == d.amount;
    assert Kept(line) <==> d.amount > 0;
    assert NetOn(account)(line) == OnIf(s.accounts[d.account].ledger == Some(account), d.amount);
  }

  /** An imported deposit is converted at its own rate, whatever rate is looked up. */
  lemma ImportAtItsRate(s: Bank, d: Deposit, account: string)
    requires Imported(d) && PostsDeposit(s, d) && d.rate.value != 0.0
    ensures var (rows, after) := (s.books.rows, CreateDeposit(s, d).0.books.rows);
      var banked := OnIf(s.accounts[d.account].ledger == Some(account) && d.amount > 0, d.amount);
      && NearBy(Sum(after, RowBaseNetOn(account)) - Sum(rows, RowBaseNetOn(account)),
                Exact(banked + Sum(d.offsets, OffsetOn(account)), d.rate.value), 2)
      && forall i :: |rows| <= i < |after| ==> after[i].base.Base? && after[i].base.rate == d.rate.value
  {
    hide CreateDeposit, DocumentRows, Group, Sum, Exact, NearBy, Imported, Filter;
    var doc := Deposits.EntryOf(s, d);
    DepositBooks(s, d);
    ImportedParts(d);
    ImportedLines(s, d);
    BankLineOn(s, d, account);
    MovesAtRate(doc, d.rate.value, account);
    EntrySum(s, d, KeptOnly(NetOn(account)));
    SumSame(d.offsets, KeptOnly(NetOn(account)), OffsetOn(account));
    SumAppend(s.books.rows, DocumentRows(doc), RowBaseNetOn(account));
    WithinOne(Sum(DocumentRows(doc), RowBaseNetOn(account)), Exact(Sum(doc.lines, KeptOnly(NetOn(account))), d.rate.value),
              |Filter(DocumentRows(doc), RowOn(account))|);
  }

  lemma ImportedLines(s: Bank, d: Deposit)
    requires Imported(d) && HasLedger(s, d)
    ensures forall l :: l in Deposits.EntryOf(s, d).lines && Kept(l) ==> OneSided(l.debit, l.credit) && l.rate == d.rate
  {
    hide Imported, Sum;
    ImportedParts(d);
    OffsetsNet(d);
    OffsetsRate(d.allocations.value, d.rate.value);
  }

  lemma OffsetsRate(lines: seq<Allocation>, rate: real)
    ensures forall l :: l in Map(lines, OffsetLine(rate)) ==> l.rate == Some(rate)
  {
  }

  /**
   A deposit first records its own credit: of its account, date and amount, under its number,
   with its hash. If that is rejected nothing more happens, and nothing that comes after
   touches transactions or balances.
   */
  lemma DepositRecords(s: Bank, d: Deposit)
    requires d.account in s.accounts
    ensures var own := Transaction(d.account, d.date, d.amount, true, Some(Source("QUICKBOOKS_DEPOSIT", d.id)), d.hash);
      var ((recorded, outcome), (t, after)) := (Record(s, own), CreateDeposit(s, d));
      && t.transactions == recorded.transactions && t.accounts == recorded.accounts && t.transfers == recorded.transfers
      && (outcome.Rejected? ==> (t, after) == (recorded, outcome))
      && (!after.Rejected? ==> after == outcome)
  {
    hide Record, ReplaceAllocations, PostDocument;
    if d.allocations.Some? { ReplaceSpares(Record(s, DepositTransaction(d)).0, d.id, Abs(d.amount), d.allocations.value); }
  }

  /** A deposit into an account that is not there is refused before anything is written. */
  lemma DepositNeedsAccount(s: Bank, d: Deposit)
    ensures d.account !in s.accounts ==> CreateDeposit(s, d) == (s, Rejected(AccountMissing))
  {
  }
}
