/**
 Deposits and the payments they bring in: what the stored totals say over every run, when a
 deposit of the QuickBooks import reaches the ledger, and what one that does not leaves behind.
 */
module Deposits {
  import opened Wrappers
  import opened Sums
  import opened Money
  import opened Accounts
  import opened Ledger
  import opened Posting
  import opened Books
  import opened LedgerRuns
  import opened Banking

  // ---- No payment is deposited beyond its amount ----

  /**
   What is stored with a payment is what its allocations come to, and that is at most its
   amount; the status says whether that is nothing, all of it, or less.
   */
  ghost predicate PaymentOk(s: Bank, p: string)
    requires p in s.payments
  {
    var pay := s.payments[p];
    && 0 <= pay.deposited <= pay.amount
    && pay.deposited == DepositedTotal(s.allocations, p)
    && pay.status == if pay.deposited == 0 then Undeposited else if pay.deposited == pay.amount then Deposited else Partial
  }

  ghost predicate PaymentsOk(s: Bank) {
    && (forall p :: p in s.payments ==> PaymentOk(s, p))
    && forall r :: r in s.allocations && r.allocation.payment.Some? ==> r.allocation.payment.value in s.payments
  }

  /** What the other deposits have of a payment. */
  function Elsewhere(s: Bank, deposit: string, payment: string): int {
    Sum(Filter(s.allocations, NotOf(deposit)), RowFromPayment(payment))
  }

  lemma ReplacedTotal(s: Bank, deposit: string, allocations: seq<Allocation>, p: string)
    ensures DepositedTotal(Replaced(s.allocations, deposit, allocations), p)
         == Elsewhere(s, deposit, p) + Sum(allocations, FromPayment(p))
  {
    hide Filter, Map, Sum;
    SumAppend(Filter(s.allocations, NotOf(deposit)), Map(allocations, RowFor(deposit)), RowFromPayment(p));
    SumMap(allocations, RowFor(deposit), RowFromPayment(p), FromPayment(p));
  }

  lemma NamesPayment(rows: seq<AllocationRow>, deposit: string, r: AllocationRow)
    requires r in rows && r.deposit == deposit && r.allocation.payment.Some?
    ensures r.allocation.payment.value in PaymentsOf(rows, deposit)
  {
  }

  /** A payment that neither the old rows nor the new ones name keeps its total. */
  lemma UntouchedTotal(rows: seq<AllocationRow>, deposit: string, allocations: seq<Allocation>, p: string)
    requires p !in Touched(rows, deposit, allocations)
    ensures DepositedTotal(Replaced(rows, deposit, allocations), p) == DepositedTotal(rows, p)
  {
    hide Filter, Sum;
    var more := Map(allocations, RowFor(deposit));
    forall r | r in rows && !NotOf(deposit)(r) ensures RowFromPayment(p)(r) == 0 {
      if r.allocation.payment == Some(p) { NamesPayment(rows, deposit, r); }
    }
    SumFilter(rows, NotOf(deposit), RowFromPayment(p));
    forall r | r in more ensures RowFromPayment(p)(r) == 0 {
      assert r.deposit == deposit && r in Replaced(rows, deposit, allocations);
      if r.allocation.payment == Some(p) { NamesPayment(Replaced(rows, deposit, allocations), deposit, r); }
    }
    SumZero(more, RowFromPayment(p));
    SumAppend(Filter(rows, NotOf(deposit)), more, RowFromPayment(p));
  }

  /** The allocations leave every payment between nothing and its amount. */
  ghost predicate PaymentsFit(s: Bank, deposit: string, allocations: seq<Allocation>) {
    forall p :: p in s.payments ==>
      0 <= Elsewhere(s, deposit, p) + Sum(allocations, FromPayment(p)) <= s.payments[p].amount
  }

  /** No allocation is zero, names an account the chart does not have, or a payment that is not stored. */
  ghost predicate AllocationsSound(s: Bank, allocations: seq<Allocation>) {
    forall a :: a in allocations ==>
      && a.amount != 0 && (exists c :: c in s.books.chart && c.id == a.account)
      && (a.payment.Some? ==> a.payment.value in s.payments)
  }

  lemma SoundIff(s: Bank, allocations: seq<Allocation>)
    ensures AllocationsSound(s, allocations) <==> forall a :: a in allocations ==> AllocationSound(s, a)
  {
    forall a | a in allocations
      ensures (exists c :: c in s.books.chart && c.id == a.account) <==> Find(s.books.chart, a.account).Some?
    {
      var found := Find(s.books.chart, a.account);
      if found.Some? { assert found.value in s.books.chart; }
    }
  }

  /**
   When allocations are accepted: each is sound, together they come to the transaction's
   amount, and no payment is brought in for more than it is. The tolerance of the
   function's own check is never used, because the payment table has none.
   */
  lemma AcceptedIff(s: Bank, deposit: string, amount: int, allocations: seq<Allocation>)
    requires PaymentsOk(s)
    ensures AllocationRefusal(s, deposit, amount, allocations).None?
       <==> AllocationsSound(s, allocations) && Abs(Sum(allocations, Allocated()) - amount) <= 1
            && PaymentsFit(s, deposit, allocations)
  {
    hide AllocationSound, AllocationsSound, DepositedTotal, Replaced, Elsewhere, Touched, Sum;
    SoundIff(s, allocations);
    forall p | p in s.payments
      ensures DepositedTotal(Replaced(s.allocations, deposit, allocations), p)
           == Elsewhere(s, deposit, p) + Sum(allocations, FromPayment(p))
      ensures p !in Touched(s.allocations, deposit, allocations) ==>
        DepositedTotal(Replaced(s.allocations, deposit, allocations), p) == s.payments[p].deposited
    {
      ReplacedTotal(s, deposit, allocations, p);
      assert PaymentOk(s, p);
      if p !in Touched(s.allocations, deposit, allocations) { UntouchedTotal(s.allocations, deposit, allocations, p); }
    }
  }

  /** And why they are refused: the first of these reasons that holds. */
  lemma RefusedFor(s: Bank, deposit: string, amount: int, allocations: seq<Allocation>)
    requires PaymentsOk(s)
    ensures var refusal := AllocationRefusal(s, deposit, amount, allocations);
      var (sound, apart) := (AllocationsSound(s, allocations), Abs(Sum(allocations, Allocated()) - amount) > 1);
      var over := exists p :: p in s.payments && Elsewhere(s, deposit, p) + Sum(allocations, FromPayment(p)) > s.payments[p].amount + 1;
      && (refusal == Some(AllocationInvalid) <==> !sound)
      && (refusal == Some(AllocationsDiffer) <==> sound && apart)
      && (refusal == Some(DepositedTwice) <==> sound && !apart && over)
      && (refusal == Some(DepositedOutOfRange) <==> sound && !apart && !over && !PaymentsFit(s, deposit, allocations))
  {
    hide AllocationSound, AllocationsSound, DepositedTotal, Replaced, Elsewhere, Touched, Sum;
    SoundIff(s, allocations);
    AcceptedIff(s, deposit, amount, allocations);
    forall p | p in s.payments
      ensures DepositedTotal(Replaced(s.allocations, deposit, allocations), p)
           == Elsewhere(s, deposit, p) + Sum(allocations, FromPayment(p))
    {
      ReplacedTotal(s, deposit, allocations, p);
    }
  }

  lemma ReplaceKeeps(s: Bank, deposit: string, amount: int, allocations: seq<Allocation>)
    requires PaymentsOk(s)
    ensures PaymentsOk(ReplaceAllocations(s, deposit, amount, allocations).0)
  {
    hide DepositedTotal, Replaced, Touched, Sum;
    var (t, refusal) := ReplaceAllocations(s, deposit, amount, allocations);
    if refusal.None? {
      SoundIff(s, allocations);
      forall p | p in t.payments ensures PaymentOk(t, p) {
        assert PaymentOk(s, p);
        if p !in Touched(s.allocations, deposit, allocations) { UntouchedTotal(s.allocations, deposit, allocations, p); }
      }
      ReplacedKnown(s, deposit, allocations);
    }
  }

  lemma ReplacedKnown(s: Bank, deposit: string, allocations: seq<Allocation>)
    requires PaymentsOk(s) && AllocationsSound(s, allocations)
    ensures forall r :: r in Replaced(s.allocations, deposit, allocations) && r.allocation.payment.Some? ==>
      r.allocation.payment.value in s.payments
  {
    hide PaymentOk;
    forall r | r in Replaced(s.allocations, deposit, allocations) && r.allocation.payment.Some?
      ensures r.allocation.payment.value in s.payments
    {
      var more := Map(allocations, RowFor(deposit));
      if r in more {
        var i :| 0 <= i < |more| && more[i] == r;
        assert allocations[i] in allocations;
      }
    }
  }

  lemma SamePayments(s: Bank, t: Bank)
    requires PaymentsOk(s) && t.payments == s.payments && t.allocations == s.allocations
    ensures PaymentsOk(t)
  {
    forall p | p in t.payments ensures PaymentOk(t, p) { assert PaymentOk(s, p); }
  }

  lemma AddKeeps(s: Bank, id: string, amount: int)
    requires PaymentsOk(s)
    ensures PaymentsOk(AddPayment(s, id, amount))
  {
    var t := AddPayment(s, id, amount);
    if t != s {
      assert forall r :: r in s.allocations ==> r.allocation.payment != Some(id);
      forall p | p in t.payments ensures PaymentOk(t, p) {
        if p == id {
          assert forall r :: r in s.allocations ==> RowFromPayment(id)(r) == 0;
          SumZero(s.allocations, RowFromPayment(id));
        } else {
          assert PaymentOk(s, p);
        }
      }
    }
  }

  /** The bank as it stands once the transaction of a deposit is recorded and its allocations are replaced. */
  function AfterAllocations(s: Bank, d: Deposit): (Bank, Option<BankError>) {
    var recorded := Record(s, DepositTransaction(d)).0;
    if d.allocations.None? then (recorded, None) else ReplaceAllocations(recorded, d.id, Abs(d.amount), d.allocations.value)
  }

  lemma RecordSpares(s: Bank, input: Transaction)
    ensures var t := Record(s, input).0;
      t.payments == s.payments && t.allocations == s.allocations && t.books == s.books && t.transfers == s.transfers
  {
    hide Matches, SameTransaction, Abs;
  }

  lemma DepositKeeps(s: Bank, d: Deposit)
    requires PaymentsOk(s)
    ensures PaymentsOk(CreateDeposit(s, d).0)
  {
    hide Record, PaymentsOk, PostTo, ReplaceAllocations;
    var recorded := Record(s, DepositTransaction(d)).0;
    RecordSpares(s, DepositTransaction(d));
    SamePayments(s, recorded);
    if d.allocations.Some? { ReplaceKeeps(recorded, d.id, Abs(d.amount), d.allocations.value); }
    var replaced := AfterAllocations(s, d).0;
    var t := CreateDeposit(s, d).0;
    if d.account in s.accounts && s.accounts[d.account].ledger.Some? {
      PostToKeeps(replaced, DepositDocument(d, s.accounts[d.account], s.accounts[d.account].ledger.value), Record(s, DepositTransaction(d)).1);
    }
    if t != s && t != recorded { SamePayments(replaced, t); }
  }

  /** Over every run no payment is deposited for more than its amount, and each one's stored total and status are true. */
  lemma {:induction false} RunKeepsPayments(s: Bank, steps: seq<BankStep>)
    requires PaymentsOk(s)
    ensures PaymentsOk(TakeAll(s, steps))
  {
    hide PaymentsOk, Take;
    if steps != [] {
      RunKeepsPayments(s, steps[..|steps| - 1]);
      StepKeepsPayments(TakeAll(s, steps[..|steps| - 1]), steps[|steps| - 1]);
    }
  }

  lemma StepKeepsPayments(s: Bank, step: BankStep)
    requires PaymentsOk(s)
    ensures PaymentsOk(Take(s, step))
  {
    hide PaymentsOk, Record, CreateDeposit, CreateTransfer, AddPayment;
    match step
    case RecordStep(input) =>
      RecordSpares(s, input);
      SamePayments(s, Record(s, input).0);
    case DepositStep(d) => DepositKeeps(s, d);
    case TransferStep(x) =>
      TransferSpares(s, x);
      SamePayments(s, CreateTransfer(s, x).0);
    case PaymentStep(id, amount) => AddKeeps(s, id, amount);
  }

  lemma TransferSpares(s: Bank, x: Transfer)
    ensures var t := CreateTransfer(s, x).0; t.payments == s.payments && t.allocations == s.allocations
  {
    hide CreateTransfer, CheckTransfer;
    TransferShape(s, x);
  }

  // ---- Allocations explain their deposits ----

  /** Transactions stay, but for a hash that may be filled in. */
  ghost predicate Follows(s: Bank, t: Bank) {
    && |s.transactions| <= |t.transactions|
    && forall k :: 0 <= k < |s.transactions| ==>
         && t.transactions[k] == s.transactions[k].(hash := t.transactions[k].hash)
         && (s.transactions[k].hash.Some? ==> t.transactions[k] == s.transactions[k])
  }

  lemma RecordFollows(s: Bank, input: Transaction)
    ensures Follows(s, Record(s, input).0)
  {
    hide Matches, SameTransaction, Abs;
  }

  lemma StepFollows(s: Bank, step: BankStep)
    ensures Follows(s, Take(s, step))
  {
    hide Record, CreateDeposit, CreateTransfer, CheckTransfer;
    match step
    case RecordStep(input) => RecordFollows(s, input);
    case DepositStep(d) =>
      RecordFollows(s, DepositTransaction(d));
      DepositShape(s, d);
    case TransferStep(x) => TransferShape(s, x);
    case PaymentStep(_, _) =>
  }

  lemma {:induction false} RunFollows(s: Bank, steps: seq<BankStep>)
    ensures Follows(s, TakeAll(s, steps))
  {
    hide Take;
    if steps != [] {
      RunFollows(s, steps[..|steps| - 1]);
      StepFollows(TakeAll(s, steps[..|steps| - 1]), steps[|steps| - 1]);
    }
  }

  function Of(deposit: string): AllocationRow -> int {
    (r: AllocationRow) => if r.deposit == deposit then r.allocation.amount else 0
  }

  /** A stored credit of the deposit comes to what its allocations do, to within a unit. */
  ghost predicate IsExplained(s: Bank, deposit: string) {
    exists k :: 0 <= k < |s.transactions| && Explains(s.transactions[k], s.allocations, deposit)
  }

  predicate Explains(t: Transaction, rows: seq<AllocationRow>, deposit: string) {
    t.source == Some(Source("QUICKBOOKS_DEPOSIT", deposit)) && t.credit && Abs(Sum(rows, Of(deposit)) - t.amount) <= 1
  }

  ghost predicate Explained(s: Bank) {
    forall r :: r in s.allocations ==> IsExplained(s, r.deposit)
  }

  lemma StillExplained(s: Bank, t: Bank)
    requires Explained(s) && Follows(s, t) && t.allocations == s.allocations
    ensures Explained(t)
  {
    hide Explains;
    forall r | r in t.allocations ensures IsExplained(t, r.deposit) {
      var k :| 0 <= k < |s.transactions| && Explains(s.transactions[k], s.allocations, r.deposit);
      SameExplanation(s.transactions[k], t.transactions[k], s.allocations, r.deposit);
    }
  }

  lemma SameExplanation(t: Transaction, u: Transaction, rows: seq<AllocationRow>, deposit: string)
    requires u == t.(hash := u.hash)
    ensures Explains(u, rows, deposit) == Explains(t, rows, deposit)
  {
  }

  lemma ReplacedOf(rows: seq<AllocationRow>, deposit: string, allocations: seq<Allocation>, other: string)
    ensures Sum(Replaced(rows, deposit, allocations), Of(other))
         == if other == deposit then Sum(allocations, Allocated()) else Sum(rows, Of(other))
  {
    hide Filter, Map, Sum;
    var (kept, more) := (Filter(rows, NotOf(deposit)), Map(allocations, RowFor(deposit)));
    SumAppend(kept, more, Of(other));
    if other == deposit {
      SumZero(kept, Of(other));
      SumMap(allocations, RowFor(deposit), Of(other), Allocated());
    } else {
      SumFilter(rows, NotOf(deposit), Of(other));
      assert forall r :: r in more ==> r.deposit == deposit;
      SumZero(more, Of(other));
    }
  }

  /** Recording leaves a stored credit of the deposit, of its size. */
  lemma RecordedIsStored(s: Bank, d: Deposit)
    requires !Record(s, DepositTransaction(d)).1.Rejected?
    ensures var t := Record(s, DepositTransaction(d)).0;
      exists k :: 0 <= k < |t.transactions| && t.transactions[k].source == DepositTransaction(d).source
        && t.transactions[k].credit && t.transactions[k].amount == Abs(d.amount)
  {
    hide Matches;
    var input := DepositTransaction(d);
    var (t, outcome) := Record(s, input);
    var k := if outcome.Recorded? then |s.transactions| else SourceIndex(s.transactions, input.source);
    assert t.transactions[k].source == input.source && t.transactions[k].credit && t.transactions[k].amount == Abs(d.amount);
  }

  lemma ReplaceExplains(s: Bank, deposit: string, amount: int, allocations: seq<Allocation>, k: nat)
    requires Explained(s) && k < |s.transactions| && s.transactions[k].credit && s.transactions[k].amount == amount
    requires s.transactions[k].source == Some(Source("QUICKBOOKS_DEPOSIT", deposit))
    ensures Explained(ReplaceAllocations(s, deposit, amount, allocations).0)
  {
    hide AllocationSound, DepositedTotal, Restated, Touched, Sum, Replaced;
    var (t, refusal) := ReplaceAllocations(s, deposit, amount, allocations);
    if refusal.None? {
      forall r | r in t.allocations ensures IsExplained(t, r.deposit) {
        ReplacedOf(s.allocations, deposit, allocations, r.deposit);
        if r.deposit == deposit {
          assert Explains(t.transactions[k], t.allocations, deposit);
        } else {
          OldRow(s.allocations, deposit, allocations, r);
          assert IsExplained(s, r.deposit);
          var i :| 0 <= i < |s.transactions| && Explains(s.transactions[i], s.allocations, r.deposit);
          assert Explains(t.transactions[i], t.allocations, r.deposit);
        }
      }
    }
  }

  lemma OldRow(rows: seq<AllocationRow>, deposit: string, allocations: seq<Allocation>, r: AllocationRow)
    requires r in Replaced(rows, deposit, allocations) && r.deposit != deposit
    ensures r in rows
  {
  }

  lemma DepositExplains(s: Bank, d: Deposit)
    requires Explained(s)
    ensures Explained(CreateDeposit(s, d).0)
  {
    hide Record, Explained, PostTo, ReplaceAllocations, Follows;
    var (recorded, outcome) := Record(s, DepositTransaction(d));
    RecordSpares(s, DepositTransaction(d));
    RecordFollows(s, DepositTransaction(d));
    StillExplained(s, recorded);
    if d.allocations.Some? && !outcome.Rejected? {
      RecordedIsStored(s, d);
      var k :| 0 <= k < |recorded.transactions| && recorded.transactions[k].source == DepositTransaction(d).source
        && recorded.transactions[k].credit && recorded.transactions[k].amount == Abs(d.amount);
      ReplaceExplains(recorded, d.id, Abs(d.amount), d.allocations.value, k);
    }
    var replaced := AfterAllocations(s, d).0;
    var t := CreateDeposit(s, d).0;
    if d.account in s.accounts && s.accounts[d.account].ledger.Some? {
      PostToKeeps(replaced, DepositDocument(d, s.accounts[d.account], s.accounts[d.account].ledger.value), outcome);
    }
    if t != s && t != recorded && t != replaced {
      SameFollows(replaced, t);
      StillExplained(replaced, t);
    }
  }

  lemma SameFollows(s: Bank, t: Bank)
    requires t.transactions == s.transactions
    ensures Follows(s, t)
  {
  }

  /** Over every run the allocations of a deposit come to what its bank transaction says, to within a unit. */
  lemma {:induction false} RunKeepsExplained(s: Bank, steps: seq<BankStep>)
    requires Explained(s)
    ensures Explained(TakeAll(s, steps))
  {
    hide Explained, Take;
    if steps != [] {
      RunKeepsExplained(s, steps[..|steps| - 1]);
      StepKeepsExplained(TakeAll(s, steps[..|steps| - 1]), steps[|steps| - 1]);
    }
  }

  lemma StepKeepsExplained(s: Bank, step: BankStep)
    requires Explained(s)
    ensures Explained(Take(s, step))
  {
    hide Explained, Record, CreateDeposit, CreateTransfer, Follows;
    StepFollows(s, step);
    match step
    case RecordStep(input) =>
      RecordSpares(s, input);
      StillExplained(s, Record(s, input).0);
    case DepositStep(d) => DepositExplains(s, d);
    case TransferStep(x) =>
      TransferSpares(s, x);
      StillExplained(s, CreateTransfer(s, x).0);
    case PaymentStep(id, amount) => StillExplained(s, AddPayment(s, id, amount));
  }

  // ---- The QuickBooks import ----

  /** A source line credits its account; cash back debits it. */
  function OffsetLine(rate: real): Allocation -> PostingLine {
    (a: Allocation) =>
      if a.amount > 0 then PostingLine(a.account, 0, Abs(a.amount), None, Some(rate))
      else PostingLine(a.account, Abs(a.amount), 0, None, Some(rate))
  }

  /** A deposit is imported only if no line is zero and the lines come to its total, to within a unit. */
  function ImportDeposit(
      id: string, account: string, date: int, total: int, lookup: real, rate: real, currency: string, hash: string,
      lines: seq<Allocation>): Option<Deposit>
  {
    if (exists a :: a in lines && a.amount == 0) || Abs(total - Sum(lines, Allocated())) > 1 then None
    else
      Some(Deposit(id, account, date, total, lookup, Some(rate), Some(currency), Some(hash),
                   Map(lines, OffsetLine(rate)), Some(lines)))
  }

  method BuildOffsets(lines: seq<Allocation>, rate: real) returns (offsets: seq<PostingLine>)
    ensures offsets == Map(lines, OffsetLine(rate))
  {
    offsets := [];
    for i := 0 to |lines|
      invariant offsets == Map(lines[..i], OffsetLine(rate))
    {
      assert lines[..i + 1][..i] == lines[..i];
      var (account, amount) := (lines[i].account, Abs(lines[i].amount));
      if lines[i].amount > 0 {
        offsets := offsets + [PostingLine(account, 0, amount, None, Some(rate))];
      } else {
        offsets := offsets + [PostingLine(account, amount, 0, None, Some(rate))];
      }
    }
    assert lines[..|lines|] == lines;
  }

  /**
   What the import takes: any total that its lines come to, to within a unit, if none of them
   is zero. Source lines become credits and cash back debits, at the deposit's rate.
   */
  lemma ImportTakesIff(
      id: string, account: string, date: int, total: int, lookup: real, rate: real, currency: string, hash: string,
      lines: seq<Allocation>)
    ensures var d := ImportDeposit(id, account, date, total, lookup, rate, currency, hash, lines);
      && (d.Some? <==> (forall a :: a in lines ==> a.amount != 0) && -1 <= total - Sum(lines, Allocated()) <= 1)
      && (d.Some? ==>
            && d.value == Deposit(id, account, date, total, lookup, Some(rate), Some(currency), Some(hash), d.value.offsets, Some(lines))
            && |d.value.offsets| == |lines|
            && forall i :: 0 <= i < |lines| ==>
                 d.value.offsets[i] ==
                   if lines[i].amount < 0 then PostingLine(lines[i].account, -lines[i].amount, 0, None, Some(rate))
                   else PostingLine(lines[i].account, 0, lines[i].amount, None, Some(rate)))
  {
    hide Sum;
  }

  predicate Imported(d: Deposit) {
    && d.rate.Some? && d.currency.Some? && d.hash.Some? && d.allocations.Some?
    && ImportDeposit(d.id, d.account, d.date, d.amount, d.lookup, d.rate.value, d.currency.value, d.hash.value, d.allocations.value) == Some(d)
  }

  lemma ImportedParts(d: Deposit)
    requires Imported(d)
    ensures d.rate.Some? && d.hash.Some? && d.allocations.Some? && d.offsets == Map(d.allocations.value, OffsetLine(d.rate.value))
    ensures Abs(d.amount - AllocatedTotal(d)) <= 1 && forall a :: a in d.allocations.value ==> a.amount != 0
  {
    hide Sum;
  }

  function AllocatedTotal(d: Deposit): int
    requires d.allocations.Some?
  {
    Sum(d.allocations.value, Allocated())
  }

  /**
   The transaction holds the size of the total, the allocations hold its sign: they agree
   exactly for a positive total, and for one of minus one unit whose lines come to nothing.
   */
  lemma TotalAcceptedIff(d: Deposit)
    requires Imported(d) && d.amount != 0
    ensures Abs(AllocatedTotal(d) - Abs(d.amount)) <= 1 <==> d.amount > 0 || (d.amount == -1 && AllocatedTotal(d) == 0)
  {
    hide Sum;
  }

  /** What lets the allocations of an imported deposit through. */
  ghost predicate Allocates(s: Bank, d: Deposit)
    requires d.allocations.Some?
  {
    && AllocationsSound(s, d.allocations.value) && PaymentsFit(s, d.id, d.allocations.value)
    && (d.amount > 0 || (d.amount == -1 && AllocatedTotal(d) == 0))
  }

  predicate RefusedBeforeLedger(outcome: BankOutcome) { outcome.Rejected? && !outcome.error.LedgerRefused? }

  /** The deposit's transaction is recorded, or known and the same, and its account has a ledger account. */
  predicate Recorded(s: Bank, d: Deposit) {
    !Record(s, DepositTransaction(d)).1.Rejected? && d.account in s.accounts && s.accounts[d.account].ledger.Some?
  }

  function EntryOf(s: Bank, d: Deposit): Document
    requires d.account in s.accounts && s.accounts[d.account].ledger.Some?
  {
    DepositDocument(d, s.accounts[d.account], s.accounts[d.account].ledger.value)
  }

  lemma RecordedSame(s: Bank, d: Deposit)
    requires PaymentsOk(s) && d.allocations.Some?
    ensures var recorded := Record(s, DepositTransaction(d)).0;
      && PaymentsOk(recorded) && recorded.books == s.books
      && recorded.allocations == s.allocations && recorded.payments == s.payments
      && AllocationsSound(recorded, d.allocations.value) == AllocationsSound(s, d.allocations.value)
      && PaymentsFit(recorded, d.id, d.allocations.value) == PaymentsFit(s, d.id, d.allocations.value)
  {
    hide Record, PaymentsOk;
    RecordSpares(s, DepositTransaction(d));
    SamePayments(s, Record(s, DepositTransaction(d)).0);
  }

  lemma NotZero(s: Bank, d: Deposit)
    requires !Record(s, DepositTransaction(d)).1.Rejected?
    ensures d.amount != 0
  {
  }

  /**
   When an imported deposit that has been recorded reaches the ledger. If it does, the
   allocations are replaced and the books are those of its entry, posted or refused; if it
   does not, nothing but its transaction and its balance has been written.
   */
  lemma ReachesLedgerIff(s: Bank, d: Deposit)
    requires PaymentsOk(s) && Imported(d) && Recorded(s, d)
    ensures var (t, outcome) := CreateDeposit(s, d);
      && (Allocates(s, d) <==> !RefusedBeforeLedger(outcome))
      && (Allocates(s, d) ==>
            && t.allocations == Replaced(s.allocations, d.id, d.allocations.value)
            && t.books == PostDocument(s.books, EntryOf(s, d)).0
            && (outcome.Rejected? <==> PostDocument(s.books, EntryOf(s, d)).1.Refused?))
      && (!Allocates(s, d) ==> t == Record(s, DepositTransaction(d)).0)
  {
    hide Record, PaymentsOk, AllocationsSound, PaymentsFit, PostDocument, AllocationRefusal, Imported, Sum, Restated, Replaced;
    var recorded := Record(s, DepositTransaction(d)).0;
    NotZero(s, d);
    ImportedParts(d);
    TotalAcceptedIff(d);
    RecordedSame(s, d);
    AcceptedIff(recorded, d.id, Abs(d.amount), d.allocations.value);
    RefusalKind(recorded, d.id, Abs(d.amount), d.allocations.value);
  }

  lemma RefusalKind(s: Bank, deposit: string, amount: int, allocations: seq<Allocation>)
    ensures var refusal := AllocationRefusal(s, deposit, amount, allocations); refusal.Some? ==> !refusal.value.LedgerRefused?
  {
    hide AllocationSound, DepositedTotal, Replaced, Touched, Sum;
  }

  // ---- What the entry of an imported deposit does ----

  lemma OffsetsNet(d: Deposit)
    requires Imported(d)
    ensures Sum(d.offsets, NetOf()) == -AllocatedTotal(d) && Sum(d.offsets, DebitOf()) >= 0
    ensures forall l :: l in d.offsets ==> OneSided(l.debit, l.credit)
  {
    hide Sum, Imported;
    ImportedParts(d);
    var (lines, offset) := (d.allocations.value, OffsetLine(d.rate.value));
    OffsetsOneSided(lines, d.rate.value);
    SumMap(lines, offset, NetOf(), MinusAllocated());
    SumOpposite(lines, MinusAllocated(), Allocated());
    SumNonNegative(d.offsets, DebitOf());
  }

  lemma OffsetsOneSided(lines: seq<Allocation>, rate: real)
    requires forall a :: a in lines ==> a.amount != 0
    ensures forall l :: l in Map(lines, OffsetLine(rate)) ==> OneSided(l.debit, l.credit)
  {
    forall l | l in Map(lines, OffsetLine(rate)) ensures OneSided(l.debit, l.credit) {
      var i :| 0 <= i < |lines| && Map(lines, OffsetLine(rate))[i] == l;
      assert lines[i] in lines;
    }
  }

  function MinusAllocated(): Allocation -> int { (a: Allocation) => -a.amount }

  function BankLine(s: Bank, d: Deposit): PostingLine
    requires d.account in s.accounts && s.accounts[d.account].ledger.Some?
  {
    PostingLine(s.accounts[d.account].ledger.value, d.amount, 0, None, d.rate)
  }

  lemma EntrySum(s: Bank, d: Deposit, f: PostingLine -> int)
    requires d.account in s.accounts && s.accounts[d.account].ledger.Some?
    ensures Sum(EntryOf(s, d).lines, f) == f(BankLine(s, d)) + Sum(d.offsets, f)
  {
    SumAppend([BankLine(s, d)], d.offsets, f);
    SumOfOne(BankLine(s, d), f);
  }

  /** The entry of a positive deposit is balanced to within a unit, and its rows are ones the ledger takes. */
  lemma EntryIsSound(s: Bank, d: Deposit)
    requires Imported(d) && d.amount > 0 && d.account in s.accounts && s.accounts[d.account].ledger.Some?
    ensures ValidateBalanced(Plain(EntryOf(s, d).lines)).None?
    ensures forall r :: r in DocumentRows(EntryOf(s, d)) ==> RowAllowed(r)
  {
    hide Sum, Group, Imported, Plain;
    var lines := EntryOf(s, d).lines;
    OffsetsNet(d);
    ImportedParts(d);
    EntrySum(s, d, NetOf());
    EntrySum(s, d, DebitOf());
    PlainNet(lines);
    PlainDebit(lines);
    assert forall l :: l in lines ==> l == BankLine(s, d) || l in d.offsets;
    GroupOneSided(lines);
  }

  /** Every account the entry names may be posted to. */
  ghost predicate AccountsUsable(s: Bank, d: Deposit)
    requires d.allocations.Some? && d.account in s.accounts && s.accounts[d.account].ledger.Some?
  {
    && Usable(s.books.chart, s.accounts[d.account].ledger.value)
    && forall a :: a in d.allocations.value ==> Usable(s.books.chart, a.account)
  }

  lemma EntryAccounts(s: Bank, d: Deposit)
    requires Imported(d) && d.account in s.accounts && s.accounts[d.account].ledger.Some?
    ensures d.allocations.Some?
    ensures (forall l :: l in Plain(EntryOf(s, d).lines) ==> Usable(s.books.chart, l.account)) <==> AccountsUsable(s, d)
  {
    hide Usable, Imported;
    ImportedParts(d);
    var (allocations, plain) := (d.allocations.value, Plain(EntryOf(s, d).lines));
    assert |plain| == |allocations| + 1 && plain[0].account == s.accounts[d.account].ledger.value;
    forall i | 0 <= i < |allocations| ensures plain[i + 1].account == allocations[i].account {
      assert EntryOf(s, d).lines[i + 1] == d.offsets[i];
    }
    UsableOfAll(s.books.chart, plain, s.accounts[d.account].ledger.value, allocations);
  }

  lemma UsableOfAll(chart: seq<Account>, plain: seq<Line>, first: string, allocations: seq<Allocation>)
    requires |plain| == |allocations| + 1 && plain[0].account == first
    requires forall i :: 0 <= i < |allocations| ==> plain[i + 1].account == allocations[i].account
    ensures (forall l :: l in plain ==> Usable(chart, l.account))
       <==> Usable(chart, first) && forall a :: a in allocations ==> Usable(chart, a.account)
  {
    hide Usable;
    if forall l :: l in plain ==> Usable(chart, l.account) {
      assert plain[0] in plain;
      forall a | a in allocations ensures Usable(chart, a.account) {
        var i :| 0 <= i < |allocations| && allocations[i] == a;
        assert plain[i + 1] in plain;
      }
    }
    if Usable(chart, first) && forall a :: a in allocations ==> Usable(chart, a.account) {
      forall l | l in plain ensures Usable(chart, l.account) {
        var i :| 0 <= i < |plain| && plain[i] == l;
        if i > 0 { assert allocations[i - 1] in allocations && plain[i - 1 + 1].account == allocations[i - 1].account; }
      }
    }
  }

  /**
   A positive imported deposit that is new to the ledger posts exactly when its allocations
   are accepted, its date is open and the accounts it names may be posted to.
   */
  lemma ImportedPostsIff(s: Bank, d: Deposit)
    requires PaymentsOk(s) && Imported(d) && Recorded(s, d) && d.amount > 0
    requires !HasOrigin(s.books.rows, FromDocument("DEPOSIT", d.id))
    ensures var (t, outcome) := CreateDeposit(s, d);
      && (!outcome.Rejected? <==> Allocates(s, d) && !ClosedOn(s.books.periods, d.date) && AccountsUsable(s, d))
      && t.books.rows == s.books.rows + if outcome.Rejected? then [] else DocumentRows(EntryOf(s, d))
  {
    hide Record, PaymentsOk, Allocates, Imported, CreateDeposit, DocumentRows, HasOrigin, ClosedOn, ValidateBalanced, Plain, Known, Find;
    var doc := EntryOf(s, d);
    ReachesLedgerIff(s, d);
    EntryIsSound(s, d);
    EntryAccounts(s, d);
    assert s.books.rows + [] == s.books.rows;
    if !PostDocument(s.books, doc).1.Refused? { FirstPostingAppends(s.books, doc); }
    PostsUnlessContext(s.books, doc);
    RecordSpares(s, DepositTransaction(d));
  }

  lemma PostsUnlessContext(s: Books, doc: Document)
    requires forall r :: r in DocumentRows(doc) ==> RowAllowed(r)
    requires ValidateBalanced(Plain(doc.lines)).None?
    ensures PostDocument(s, doc).1.Refused? <==>
      ClosedOn(s.periods, doc.date) || exists l :: l in Plain(doc.lines) && !Usable(s.chart, l.account)
    ensures PostDocument(s, doc).1.Refused? ==> PostDocument(s, doc).0 == s
  {
    hide DocumentRows, Plain, ValidateBalanced, ClosedOn, Find, HasOrigin;
  }

  function AllocatedOn(account: string): Allocation -> int { (a: Allocation) => if a.account == account then a.amount else 0 }
  function MinusAllocatedOn(account: string): Allocation -> int {
    (a: Allocation) => if a.account == account then -a.amount else 0
  }

  /** The deposit is recorded for the first time and its entry is posted. */
  predicate FirstPosted(s: Bank, d: Deposit) {
    && Recorded(s, d) && Record(s, DepositTransaction(d)).1.Recorded? && CreateDeposit(s, d).1.Recorded?
    && !HasOrigin(s.books.rows, FromDocument("DEPOSIT", d.id))
  }

  /** Offset lines are never dropped, whatever they weigh. */
  lemma OffsetsKept(d: Deposit, f: PostingLine -> int)
    requires Imported(d)
    ensures Sum(d.offsets, KeptOnly(f)) == Sum(d.offsets, f) && Sum(d.offsets, DroppedNet()) == 0
  {
    OffsetsNet(d);
    SumSame(d.offsets, KeptOnly(f), f);
    SumZero(d.offsets, DroppedNet());
  }

  lemma EntryGroupsOn(s: Bank, d: Deposit, account: string)
    requires Imported(d) && d.account in s.accounts && s.accounts[d.account].ledger.Some?
    ensures Sum(Group(EntryOf(s, d).lines), NetOn(account))
         == (if Some(account) == s.accounts[d.account].ledger && d.amount > 0 then d.amount else 0)
            - Sum(d.allocations.value, AllocatedOn(account))
  {
    hide Group, Sum, Imported;
    ImportedParts(d);
    var (lines, offset) := (d.allocations.value, OffsetLine(d.rate.value));
    GroupKeepsSum(EntryOf(s, d).lines, NetOn(account));
    EntrySum(s, d, KeptOnly(NetOn(account)));
    OffsetsKept(d, NetOn(account));
    SumMap(lines, offset, NetOn(account), MinusAllocatedOn(account));
    SumOpposite(lines, MinusAllocatedOn(account), AllocatedOn(account));
  }

  lemma PostedAmount(s: Bank, d: Deposit)
    requires PaymentsOk(s) && Imported(d) && Recorded(s, d) && !CreateDeposit(s, d).1.Rejected?
    ensures d.amount > 0 || (d.amount == -1 && AllocatedTotal(d) == 0)
    ensures CreateDeposit(s, d).0.books == PostDocument(s.books, EntryOf(s, d)).0
    ensures !PostDocument(s.books, EntryOf(s, d)).1.Refused?
  {
    hide Record, PaymentsOk, CreateDeposit, AllocationsSound, PaymentsFit, PostDocument, Imported, Sum, Replaced;
    ImportedParts(d);
    ReachesLedgerIff(s, d);
  }

  /**
   What a posted import moves: the stored balance by the deposit's size, the bank's ledger
   account by its amount where that is positive, every account by what its lines brought or
   took, and the ledger's net by no more than the unit its lines may be out of its total.
   */
  lemma PostedDepositMoves(s: Bank, d: Deposit, account: string, w: Window)
    requires PaymentsOk(s) && Imported(d) && FirstPosted(s, d) && Within(w, d.date)
    ensures var t := CreateDeposit(s, d).0;
      var banked := if d.amount > 0 then d.amount else 0;
      && d.account in t.accounts && t.accounts[d.account].current - s.accounts[d.account].current == Abs(d.amount)
      && Movement(t.books.rows, account, w) - Movement(s.books.rows, account, w)
         == (if Some(account) == s.accounts[d.account].ledger then banked else 0) - Sum(d.allocations.value, AllocatedOn(account))
      && Net(t.books.rows, w) - Net(s.books.rows, w) == banked - AllocatedTotal(d)
      && Abs(banked - AllocatedTotal(d)) <= 1
  {
    hide PaymentsOk, Movement, Net, PostDocument, DocumentRows, HasOrigin, Imported, Sum, CreateDeposit, Record;
    var doc := EntryOf(s, d);
    ImportedParts(d);
    PostedAmount(s, d);
    FirstPostingAppends(s.books, doc);
    MovementAppend(s.books.rows, DocumentRows(doc), account, w);
    DocumentMovement(doc, account, w);
    EntryGroupsOn(s, d, account);
    BalanceGrows(s, d);
    NetAppend(s.books.rows, DocumentRows(doc), w);
    DocumentRowsNet(doc, w);
    EntrySum(s, d, NetOf());
    EntrySum(s, d, DroppedNet());
    OffsetsNet(d);
    OffsetsKept(d, NetOf());
  }

  /** A deposit recorded for the first time has raised the balance by its size, whatever happens to it afterwards. */
  lemma BalanceGrows(s: Bank, d: Deposit)
    requires d.account in s.accounts && Record(s, DepositTransaction(d)).1.Recorded?
    ensures var (t, recorded) := (CreateDeposit(s, d).0, Record(s, DepositTransaction(d)).0);
      && t.accounts == recorded.accounts && t.transactions == recorded.transactions
      && d.account in t.accounts && t.accounts[d.account].current == s.accounts[d.account].current + Abs(d.amount)
      && |t.transactions| == |s.transactions| + 1
  {
    hide Matches, SameTransaction, ReplaceAllocations, PostDocument;
    var (recorded, outcome) := Record(s, DepositTransaction(d));
    if d.allocations.Some? { ReplaceSpares(recorded, d.id, Abs(d.amount), d.allocations.value); }
  }

  lemma ReplaceSpares(s: Bank, deposit: string, amount: int, allocations: seq<Allocation>)
    ensures var t := ReplaceAllocations(s, deposit, amount, allocations).0;
      t == s.(payments := t.payments, allocations := t.allocations)
  {
    hide AllocationRefusal, Replaced, Restated;
  }

  // ---- A deposit that never reaches the ledger ----

  /** The one transaction of a source is the one that is found. */
  lemma {:induction false} OneIsFound(ts: seq<Transaction>, source: Option<Source>, k: nat)
    requires k < |ts| && ts[k].source == source
    ensures Sum(ts, OneOf(source)) >= 1
    ensures Sum(ts, OneOf(source)) == 1 ==> SourceIndex(ts, source) == k
  {
    var init := ts[..|ts| - 1];
    IndexOfKnown(init, source);
    if k < |init| { OneIsFound(init, source, k); } else { FoundIsCounted(init, source); }
  }

  lemma {:induction false} FoundIsCounted(ts: seq<Transaction>, source: Option<Source>)
    ensures SourceIndex(ts, source) < |ts| ==> Sum(ts, OneOf(source)) >= 1
  {
    IndexOfKnown(ts, source);
    if ts != [] {
      IndexOfKnown(ts[..|ts| - 1], source);
      FoundIsCounted(ts[..|ts| - 1], source);
    }
  }

  /** The lines do not come to the size of the total. */
  predicate NeverAllocated(d: Deposit) { d.allocations.Some? && Abs(AllocatedTotal(d) - Abs(d.amount)) > 1 }

  lemma NeverAccepted(s: Bank, d: Deposit)
    requires NeverAllocated(d)
    ensures AllocationRefusal(s, d.id, Abs(d.amount), d.allocations.value).Some?
  {
    hide AllocationSound, DepositedTotal, Replaced, Touched, Sum;
  }

  /**
   A further try under the source of a stored transaction with a hash: with another hash the
   transaction refuses it, with the same one the allocations do. It moves nothing.
   */
  lemma RefusedAgain(t: Bank, again: Deposit, k: nat)
    requires k < |t.transactions| && t.transactions[k].source == DepositTransaction(again).source
    requires t.transactions[k].hash.Some? && again.hash.Some?
    requires t.transactions[k].hash == again.hash ==> NeverAllocated(again)
    ensures var (u, outcome) := CreateDeposit(t, again);
      && outcome.Rejected? && u.accounts == t.accounts && u.books == t.books && |u.transactions| == |t.transactions|
      && u.payments == t.payments && u.allocations == t.allocations
  {
    hide AllocationRefusal, Abs, PostDocument;
    var input := DepositTransaction(again);
    OneIsFound(t.transactions, input.source, k);
    KnownSourceMovesNothing(t, input);
    RecordSpares(t, input);
    var (recorded, outcome) := Record(t, input);
    if again.account in t.accounts && !outcome.Rejected? {
      assert SameTransaction(t.transactions[k], input.(amount := Abs(input.amount)));
      NeverAccepted(recorded, again);
    }
  }

  /**
   An import whose cash back exceeds its receipts, by more than the single unit that passes:
   it is refused, and its transaction and a balance raised by its size stay behind. It has no
   allocation and no entry, and whatever runs in between, neither the same payload nor a
   changed one under its number gets further: each later try is refused and moves nothing.
   */
  lemma NegativeDepositStays(s: Bank, d: Deposit, steps: seq<BankStep>, again: Deposit)
    requires Imported(d) && d.amount < 0 && !(d.amount == -1 && AllocatedTotal(d) == 0)
    requires d.account in s.accounts && Record(s, DepositTransaction(d)).1.Recorded?
    requires again.id == d.id && again.hash.Some?
    requires again.hash == d.hash ==> again.amount == d.amount && again.allocations == d.allocations
    ensures var (left, outcome) := CreateDeposit(s, d);
      && outcome.Rejected? && left == Record(s, DepositTransaction(d)).0
      && d.account in left.accounts && left.accounts[d.account].current == s.accounts[d.account].current - d.amount
      && |left.transactions| == |s.transactions| + 1
      && left.books == s.books && left.allocations == s.allocations && left.payments == s.payments
    ensures var t := TakeAll(CreateDeposit(s, d).0, steps);
      var (u, retried) := CreateDeposit(t, again);
      && retried.Rejected? && u.accounts == t.accounts && u.books == t.books && |u.transactions| == |t.transactions|
      && u.payments == t.payments && u.allocations == t.allocations
  {
    hide Imported, Record, AllocationRefusal, TakeAll, Sum;
    ImportedParts(d);
    TotalAcceptedIff(d);
    var recorded := Record(s, DepositTransaction(d)).0;
    NeverAccepted(recorded, d);
    RecordSpares(s, DepositTransaction(d));
    BalanceGrows(s, d);
    StoredLast(s, DepositTransaction(d));
    RunFollows(recorded, steps);
    var t := TakeAll(recorded, steps);
    RefusedAgain(t, again, |s.transactions|);
  }

  lemma StoredLast(s: Bank, input: Transaction)
    requires Record(s, input).1.Recorded?
    ensures var t := Record(s, input).0;
      t.transactions == s.transactions + [input.(amount := Abs(input.amount))]
  {
    hide Matches, SameTransaction;
  }

  // ---- The input ----

  const START := Bank(
    map["main" := BankAccount(Some("bank"), "SAR", 0, 0, false)], [], {}, map[], [],
    Books([Account("bank", Asset, Debit, true, false, false, false), Account("sales", Income, Credit, true, false, false, false),
           Account("cash", Asset, Debit, true, false, false, false)], [], [], [], []), true)

  /** Receipts of an amount, and cash back of twice as much. */
  function CashBack(amount: int): Option<Deposit> {
    ImportDeposit("deposit", "main", 500, -amount, 1.0, 1.0, "SAR", "payload",
                  [Allocation("sales", None, amount), Allocation("cash", None, -2 * amount)])
  }

  lemma FirstOfAll(d: Deposit)
    requires d.account == "main" && d.amount != 0
    ensures Record(START, DepositTransaction(d)).1.Recorded?
  {
  }

  /**
   The failing input: the import takes it, the bank's stored balance grows by the amount,
   nothing is posted, and trying again fails for good.
   */
  lemma CashBackStays(amount: int, steps: seq<BankStep>)
    requires amount > 1
    ensures CashBack(amount).Some?
    ensures var d := CashBack(amount).value;
      var (left, outcome) := CreateDeposit(START, d);
      var t := TakeAll(left, steps);
      && outcome.Rejected? && "main" in left.accounts && left.accounts["main"].current == amount
      && left.books == START.books && CreateDeposit(t, d).1.Rejected? && CreateDeposit(t, d).0.books == t.books
  {
    hide CreateDeposit, TakeAll, Sum;
    var lines := [Allocation("sales", None, amount), Allocation("cash", None, -2 * amount)];
    SumOfTwo(lines[0], lines[1], Allocated());
    var d := CashBack(amount).value;
    FirstOfAll(d);
    NegativeDepositStays(START, d, steps, d);
  }
}
