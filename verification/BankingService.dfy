/** The bank tables as they are updated in place. */
module BankingService {
  import opened Wrappers
  import opened Sums
  import opened Money
  import opened Posting
  import opened Books
  import opened Banking
  import opened LedgerService

  class BankTables {
    const ledger: LedgerTables
    var accounts: map<string, BankAccount>
    var transactions: seq<Transaction>
    var transfers: set<string>
    var payments: map<string, Payment>
    var allocations: seq<AllocationRow>
    var indexed: bool

    constructor (ledger: LedgerTables, accounts: map<string, BankAccount>, indexed: bool)
      ensures this.ledger == ledger && State() == Bank(accounts, [], {}, map[], [], ledger.State(), indexed)
    {
      this.ledger, this.accounts, this.indexed := ledger, accounts, indexed;
      transactions, transfers, payments, allocations := [], {}, map[], [];
    }

    function State(): Bank
      reads this, ledger
    {
      Bank(accounts, transactions, transfers, payments, allocations, ledger.State(), indexed)
    }

    /** Counts the rows of a source and finds the first, row by row. */
    method FindSource(source: Option<Source>) returns (matches: int, k: nat)
      ensures matches == Sum(transactions, OneOf(source)) && k == SourceIndex(transactions, source)
    {
      matches, k := 0, 0;
      for i := 0 to |transactions|
        invariant matches == Sum(transactions[..i], OneOf(source)) && k == SourceIndex(transactions[..i], source)
      {
        SumPrefixStep(transactions, i, OneOf(source));
        assert transactions[..i + 1][..i] == transactions[..i];
        if transactions[i].source == source { matches := matches + 1; } else if k == i { k := i + 1; }
      }
      assert transactions[..|transactions|] == transactions;
    }

    method RecordBankTransaction(input: Transaction) returns (outcome: BankOutcome)
      modifies this`accounts, this`transactions
      ensures (State(), outcome) == Record(old(State()), input)
    {
      var t := input.(amount := Abs(input.amount));
      if t.amount == 0 { return Rejected(AmountNotPositive); }
      if t.source.Some? {
        var matches, k := FindSource(t.source);
        if matches > 1 { return Rejected(SourceAmbiguous); }
        if matches == 1 && k < |transactions| {
          var known := transactions[k];
          if !SameTransaction(known, t) { return Rejected(SourceChanged); }
          if known.hash.None? { known := known.(hash := t.hash); }
          transactions := transactions[k := known];
          return AlreadyRecorded;
        }
      }
      if Open(State(), t.account).None? { return Rejected(AccountMissing); }
      transactions := transactions + [t];
      var delta := if t.credit then t.amount else -t.amount;
      var account := accounts[t.account];
      accounts := accounts[t.account := account.(current := account.current + delta)];
      outcome := Recorded;
    }

    method StorePayment(id: string, amount: int)
      modifies this`payments
      ensures State() == AddPayment(old(State()), id, amount)
    {
      if id !in payments && amount >= 0 { payments := payments[id := Payment(amount, 0, Undeposited)]; }
    }

    /** The rows that the deletion leaves. */
    method OtherAllocations(deposit: string) returns (rows: seq<AllocationRow>)
      ensures rows == Filter(allocations, NotOf(deposit))
    {
      rows := [];
      for i := 0 to |allocations|
        invariant rows == Filter(allocations[..i], NotOf(deposit))
      {
        FilterStep(allocations[..i], allocations[i], NotOf(deposit));
        assert allocations[..i + 1] == allocations[..i] + [allocations[i]];
        if allocations[i].deposit != deposit { rows := rows + [allocations[i]]; }
      }
      assert allocations[..|allocations|] == allocations;
    }

    /** The rows inserted, and what they come to. */
    method InsertAllocations(prior: seq<AllocationRow>, deposit: string, items: seq<Allocation>)
      returns (rows: seq<AllocationRow>, total: int)
      ensures rows == prior + Map(items, RowFor(deposit)) && total == Sum(items, Allocated())
    {
      rows, total := prior, 0;
      for i := 0 to |items|
        invariant rows == prior + Map(items[..i], RowFor(deposit)) && total == Sum(items[..i], Allocated())
      {
        SumPrefixStep(items, i, Allocated());
        assert items[..i + 1][..i] == items[..i];
        rows, total := rows + [AllocationRow(deposit, items[i])], total + items[i].amount;
      }
      assert items[..|items|] == items;
    }

    /** The database function: the old rows go, the new ones come, and the payments of both are restated. */
    method ReplaceDepositAllocations(deposit: string, amount: int, items: seq<Allocation>) returns (refusal: Option<BankError>)
      modifies this`payments, this`allocations
      ensures (State(), refusal) == ReplaceAllocations(old(State()), deposit, amount, items)
    {
      hide AllocationSound, DepositedTotal, DepositedInRange, Restated, PaymentsOf;
      if exists a :: a in items && !AllocationSound(State(), a) { return Some(AllocationInvalid); }
      var others := OtherAllocations(deposit);
      var rows, total := InsertAllocations(others, deposit, items);
      if Abs(total - amount) > 1 { return Some(AllocationsDiffer); }
      if exists p :: p in payments && DepositedTotal(rows, p) > payments[p].amount + 1 { return Some(DepositedTwice); }
      var touched := PaymentsOf(allocations, deposit) + PaymentsOf(rows, deposit);
      if exists p :: p in payments && p in touched && !DepositedInRange(DepositedTotal(rows, p), payments[p].amount) {
        return Some(DepositedOutOfRange);
      }
      payments := Restated(payments, rows, touched);
      allocations := rows;
      refusal := None;
    }

    method CreateBankDeposit(d: Deposit) returns (outcome: BankOutcome)
      modifies this`accounts, this`transactions, this`payments, this`allocations, ledger`rows
      ensures (State(), outcome) == CreateDeposit(old(State()), d)
    {
      hide Record, PostDocument, AllocationRefusal, Replaced, Restated;
      if d.account !in accounts { return Rejected(AccountMissing); }
      var account := accounts[d.account];
      outcome := RecordBankTransaction(DepositTransaction(d));
      if outcome.Rejected? { return; }
      if d.allocations.Some? {
        var refusal := ReplaceDepositAllocations(d.id, Abs(d.amount), d.allocations.value);
        if refusal.Some? { return Rejected(refusal.value); }
      }
      if account.ledger.None? { return; }
      var posted := ledger.PostSourceDocument(DepositDocument(d, account, account.ledger.value));
      if posted.Refused? { outcome := Rejected(LedgerRefused(posted.why)); }
    }

    method CreateBankTransfer(x: Transfer) returns (outcome: BankOutcome)
      modifies this`accounts, this`transactions, this`transfers, ledger`rows
      ensures (State(), outcome) == CreateTransfer(old(State()), x)
    {
      hide CheckTransfer, PostDocument, TransferRows;
      var refusal := CheckTransfer(State(), x);
      if refusal.Some? { return Rejected(refusal.value); }
      TransferAccounts(State(), x);
      var from, to := accounts[x.from], accounts[x.to];
      outcome := AlreadyRecorded;
      if x.no !in transfers {
        transfers := transfers + {x.no};
        accounts := accounts[x.from := from.(current := from.current - x.amount)];
        accounts := accounts[x.to := to.(current := to.current + x.amount)];
        if indexed { return Rejected(SourceTaken); }
        transactions := transactions + TransferRows(x);
        outcome := Recorded;
      }
      if from.ledger.None? || to.ledger.None? { return; }
      var posted := ledger.PostSourceDocument(TransferDocument(x, from, from.ledger.value, to.ledger.value));
      if posted.Refused? { outcome := Rejected(LedgerRefused(posted.why)); }
    }
  }

  lemma TransferAccounts(s: Bank, x: Transfer)
    requires CheckTransfer(s, x).None?
    ensures x.from != x.to && x.from in s.accounts && x.to in s.accounts
  {
  }
}
