/**
 Lines without a positive side are dropped when a document is posted. None of the builders
 makes one that weighs anything: their lines have no negative side, so the ledger moves by
 what the balance check saw.
 */
module CleanDocuments {
  import opened Wrappers
  import opened Sums
  import opened Money
  import opened Posting
  import Docs = Documents
  import Pay = Payments
  import Fx = Revaluation
  import Bank = Banking
  import Dep = Deposits

  lemma MapNonNegative(lines: seq<PostingLine>, f: PostingLine -> PostingLine)
    requires forall l :: l in lines ==> NonNegative(f(l))
    ensures AllNonNegative(Map(lines, f))
  {
    forall l | l in Map(lines, f) ensures NonNegative(l) {
      var i :| 0 <= i < |lines| && Map(lines, f)[i] == l;
      assert lines[i] in lines;
    }
  }

  lemma {:induction false} ItemsNonNegative(items: seq<Docs.Item>, fallback: Option<string>, debit: bool, rate: real)
    ensures AllNonNegative(Docs.ItemLines(items, fallback, debit, rate))
  {
    if items != [] { ItemsNonNegative(items[..|items| - 1], fallback, debit, rate); }
  }

  lemma TaxNonNegative(p: Docs.Paper)
    requires AllNonNegative(p.taxLines)
    ensures AllNonNegative(Map(p.taxLines, Docs.WithRate(p.rate))) && AllNonNegative(Map(p.taxLines, Docs.SwappedAt(p.rate)))
  {
    MapNonNegative(p.taxLines, Docs.WithRate(p.rate));
    MapNonNegative(p.taxLines, Docs.SwappedAt(p.rate));
  }

  /** Invoices, credit notes, bills and expenses post amounts above zero only. */
  lemma InvoicesAndPurchasesClean(p: Docs.Paper, creditNote: bool, control: Option<string>, fallback: Option<string>)
    requires AllNonNegative(p.taxLines)
    ensures AllNonNegative(Docs.InvoiceLines(p, creditNote, control, fallback))
    ensures AllNonNegative(Docs.PurchaseLines(p, fallback, control))
  {
    hide Docs.ItemLines, Docs.AnyPositive;
    TaxNonNegative(p);
    ItemsNonNegative(p.items, fallback, creditNote, p.rate);
    ItemsNonNegative(p.items, fallback, true, p.rate);
  }

  lemma ExpensesClean(
      p: Docs.Paper, expense: Option<string>, settlement: Option<string>, imported: bool, bank: Option<string>)
    requires AllNonNegative(p.taxLines) && Docs.ExpenseLines(p, expense, settlement, imported, bank).Ok?
    ensures AllNonNegative(Docs.ExpenseLines(p, expense, settlement, imported, bank).value)
  {
    hide Docs.PurchaseLines;
    var subtotal := if p.total - p.tax > 0 then p.total - p.tax else 0;
    InvoicesAndPurchasesClean(p.(subtotal := subtotal), false, if settlement.Some? then settlement else bank, expense);
  }

  lemma {:induction false} CreditsNonNegative(items: seq<Docs.Item>, fallback: Option<string>, rate: real)
    requires Docs.CreditLines(items, fallback, rate).Ok?
    ensures AllNonNegative(Docs.CreditLines(items, fallback, rate).value)
  {
    if items != [] { CreditsNonNegative(items[..|items| - 1], fallback, rate); }
  }

  /** Sales receipts and vendor credits post their total as it is; the tables hold no negative one. */
  lemma ReceiptsAndCreditsClean(p: Docs.Paper, account: Option<string>, fallback: Option<string>)
    requires AllNonNegative(p.taxLines) && p.total >= 0
    ensures Docs.ReceiptLines(p, account, fallback).Ok? ==> AllNonNegative(Docs.ReceiptLines(p, account, fallback).value)
    ensures Docs.VendorCreditLines(p, account, fallback).Ok? ==> AllNonNegative(Docs.VendorCreditLines(p, account, fallback).value)
  {
    hide Docs.CreditLines;
    TaxNonNegative(p);
    var receipt, credit := Filter(p.items, Docs.PostingItem(true)), Filter(p.items, Docs.PostingItem(false));
    if Docs.CreditLines(receipt, fallback, p.rate).Ok? { CreditsNonNegative(receipt, fallback, p.rate); }
    if Docs.CreditLines(credit, fallback, p.rate).Ok? { CreditsNonNegative(credit, fallback, p.rate); }
  }

  lemma {:induction false} RealizedNonNegative(
      customer: bool, control: string, s: Pay.Setup, rate: real, allocations: seq<Pay.Allocation>)
    requires Pay.RealizedLines(customer, control, s, rate, allocations).Ok?
    ensures AllNonNegative(Pay.RealizedLines(customer, control, s, rate, allocations).value)
  {
    hide Pay.Booked, Pay.Difference;
    if allocations != [] { RealizedNonNegative(customer, control, s, rate, allocations[..|allocations| - 1]); }
  }

  /** Both entries of a payment; no stored payment is negative. */
  lemma PaymentsClean(p: Pay.Payment, s: Pay.Setup)
    requires p.amount >= 0 && Pay.EntryOf(p, s).Ok?
    ensures AllNonNegative(Pay.EntryOf(p, s).value.lines) && AllNonNegative(Pay.EntryOf(p, s).value.realized)
  {
    hide Pay.RealizedLines;
    var customer := Pay.IsCustomer(p);
    var control := if customer then s.receivable else s.payable;
    if p.currency != s.base { RealizedNonNegative(customer, control.value, s, p.rate, p.allocations); }
  }

  lemma RevaluationsClean(lines: seq<Fx.PreviewLine>, s: Fx.Setup)
    ensures AllNonNegative(Fx.EntryLines(lines, s))
  {
    Fx.EntryAtBase(lines, s);
  }

  /** A transfer that passes its checks, and an imported deposit that reaches the ledger with a positive amount. */
  lemma BankEntriesClean(s: Bank.Bank, x: Bank.Transfer, d: Bank.Deposit, account: Bank.BankAccount, from: string, to: string)
    ensures Bank.CheckTransfer(s, x).None? ==> AllNonNegative(Bank.TransferDocument(x, account, from, to).lines)
    ensures Dep.Imported(d) && d.amount > 0 ==> AllNonNegative(Bank.DepositDocument(d, account, to).lines)
  {
    hide Dep.Imported;
    if Dep.Imported(d) { Dep.OffsetsNet(d); }
  }
}
