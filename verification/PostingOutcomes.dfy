/**
 When documents, payments and revaluations reach the ledger: for each, what becomes of it, in
 terms of the paper, the payment or the adjustments and of the tables.
 */
module PostingOutcomes {
  import opened Wrappers
  import opened Sums
  import opened Money
  import opened Accounts
  import opened Ledger
  import opened Posting
  import opened Books
  import opened Refusals
  import opened Documents
  import opened PostedDocuments
  import Pay = Payments
  import Fx = Revaluation
  import Bank = Banking
  import Records = BankRecords

  // ---- Entries whose lines have one side each ----

  ghost predicate InLedger(rows: seq<Row>, origin: Origin) { exists r :: r in rows && r.origin == origin }

  /**
   What becomes of an entry: refused for the first reason that holds, passed over when the
   ledger has it, and posted otherwise. It changes the books exactly when it is posted.
   */
  ghost predicate Becomes(b: Books, t: Books, outcome: Outcome, origin: Origin, x: Proposal) {
    && (outcome == Reused <==> Acceptable(b, x) && InLedger(b.rows, origin))
    && (outcome.Done? <==> Acceptable(b, x) && !InLedger(b.rows, origin))
    && (forall why :: outcome == Refused(why) <==> Because(b, x, why))
    && (t != b <==> outcome.Done?)
  }

  lemma EntryBecomes(b: Books, doc: Document)
    requires DistinctIds(b.chart) && Clean(doc.lines)
    ensures Becomes(b, PostDocument(b, doc).0, PostDocument(b, doc).1, FromDocument(doc.kind, doc.id), OfDocument(doc))
  {
    hide PostDocument, DocumentRows, Acceptable, Because;
    DocumentOutcome(b, doc);
    GroupOneSided(doc.lines);
    FitRows(doc);
    if PostDocument(b, doc).1.Done? {
      AcceptedWeighs(b, OfDocument(doc));
      SomeRow(doc);
    } else {
      assert b.rows + [] == b.rows;
    }
  }

  lemma AcceptedWeighs(b: Books, x: Proposal)
    requires Acceptable(b, x)
    ensures x.debit > 0
  {
  }

  lemma FitRows(doc: Document)
    requires forall g :: g in Group(doc.lines) ==> OneSided(g.debit, g.credit)
    ensures forall r :: r in DocumentRows(doc) ==> r.debit >= 0 && r.credit >= 0 && (r.debit == 0 || r.credit == 0)
  {
    hide Group;
  }

  lemma AtRateIsClean(lines: seq<PostingLine>, rate: real)
    requires AllAtRate(lines, rate)
    ensures Clean(lines)
  {
  }

  // ---- Documents ----

  function OnePlaced(fallback: Option<string>): Item -> int {
    (item: Item) => if item.amount > 0 && (item.account.Some? || fallback.Some?) then 1 else 0
  }

  /** The posting lines of the total and of the body: those of the positive lines with an account, or one of the subtotal. */
  function LineCount(p: Paper, control: Option<string>, fallback: Option<string>): int {
    (if control.Some? && p.total > 0 then 1 else 0)
    + if exists item :: item in p.items && item.amount > 0 then Sum(p.items, OnePlaced(fallback))
      else if fallback.Some? && p.subtotal > 0 then 1 else 0
  }

  lemma {:induction false} CountItems(items: seq<Item>, fallback: Option<string>, debit: bool, rate: real)
    ensures |ItemLines(items, fallback, debit, rate)| == Sum(items, OnePlaced(fallback))
  {
    if items != [] { CountItems(items[..|items| - 1], fallback, debit, rate); }
  }

  lemma CountLines(p: Paper, creditNote: bool, control: Option<string>, fallback: Option<string>)
    ensures |InvoiceLines(p, creditNote, control, fallback)| == LineCount(p, control, fallback) + |p.taxLines|
    ensures |PurchaseLines(p, fallback, control)| == LineCount(p, control, fallback) + if p.tax > 0 then |p.taxLines| else 0
  {
    hide ItemLines, Sum;
    CountItems(p.items, fallback, creditNote, p.rate);
    CountItems(p.items, fallback, true, p.rate);
    assert AnyPositive(p.items) <==> exists item :: item in p.items && item.amount > 0;
  }

  /** An invoice or credit note goes to the ledger exactly when it is sent and makes two lines or more. */
  lemma InvoiceFiled(b: Books, p: Paper, creditNote: bool, sent: bool, receivable: Option<string>, revenue: Option<string>)
    requires DistinctIds(b.chart) && TaxOneSided(p)
    ensures var (t, outcome) := PostInvoice(b, p, creditNote, sent, receivable, revenue);
      if sent && LineCount(p, receivable, revenue) + |p.taxLines| >= 2
      then Becomes(b, t, outcome, FromDocument("INVOICE", p.id),
                   OfDocument(Entry("INVOICE", p, InvoiceLines(p, creditNote, receivable, revenue))))
      else t == b && outcome.Done?
  {
    hide InvoiceLines, PostDocument, Becomes, LineCount;
    var lines := InvoiceLines(p, creditNote, receivable, revenue);
    CountLines(p, creditNote, receivable, revenue);
    InvoicesAtRate(p, creditNote, receivable, revenue);
    AtRateIsClean(lines, p.rate);
    EntryBecomes(b, Entry("INVOICE", p, lines));
  }

  /** So does a bill once it is received, and an expense once it is approved. */
  lemma BillFiled(b: Books, p: Paper, received: bool, expense: Option<string>, payable: Option<string>)
    requires DistinctIds(b.chart) && TaxOneSided(p)
    ensures var (t, filing) := FileBill(b, p, received, expense, payable);
      && filing.Filed?
      && if received && LineCount(p, payable, expense) + (if p.tax > 0 then |p.taxLines| else 0) >= 2
         then Becomes(b, t, filing.outcome, FromDocument("BILL", p.id), OfDocument(Entry("BILL", p, PurchaseLines(p, expense, payable))))
         else t == b && filing.outcome.Done?
  {
    hide PurchaseLines, PostDocument, Becomes, LineCount;
    var lines := PurchaseLines(p, expense, payable);
    CountLines(p, false, payable, expense);
    InvoicesAtRate(p, false, payable, expense);
    AtRateIsClean(lines, p.rate);
    EntryBecomes(b, Entry("BILL", p, lines));
  }

  /** An imported expense that names no account to pay from is the one that is not built. */
  lemma ExpenseFiled(
      b: Books, p: Paper, approved: bool, expense: Option<string>, settlement: Option<string>, imported: bool, bank: Option<string>)
    requires DistinctIds(b.chart) && TaxOneSided(p)
    ensures var (t, filing) := FileExpense(b, p, approved, expense, settlement, imported, bank);
      var left := p.(subtotal := if p.total > p.tax then p.total - p.tax else 0);
      var paying := match settlement case Some(own) => Some(own) case None => bank;
      if approved && settlement.None? && imported then t == b && filing == NotBuilt(NoSettlement)
      else if approved && LineCount(left, paying, expense) + (if p.tax > 0 then |p.taxLines| else 0) >= 2
      then filing.Filed? && Becomes(b, t, filing.outcome, FromDocument("EXPENSE", p.id),
                                    OfDocument(Entry("EXPENSE", p, PurchaseLines(left, expense, paying))))
      else t == b && filing.Filed? && filing.outcome.Done?
  {
    hide PurchaseLines, PostDocument, Becomes, LineCount;
    var left := p.(subtotal := if p.total > p.tax then p.total - p.tax else 0);
    var paying := match settlement case Some(own) => Some(own) case None => bank;
    var lines := PurchaseLines(left, expense, paying);
    CountLines(left, false, paying, expense);
    InvoicesAtRate(left, false, paying, expense);
    AtRateIsClean(lines, p.rate);
    EntryBecomes(b, Entry("EXPENSE", p, lines));
  }

  /** Receipts and vendor credits go to the ledger whenever they can be built. */
  lemma ReceiptFiled(b: Books, p: Paper, account: Option<string>, fallback: Option<string>)
    requires DistinctIds(b.chart) && TaxOneSided(p) && p.total >= 0
    ensures var ((t, filing), lines) := (FileReceipt(b, p, account, fallback), ReceiptLines(p, account, fallback));
      match lines
      case Err(e) => t == b && filing == NotBuilt(e)
      case Ok(ls) =>
        filing.Filed? && Becomes(b, t, filing.outcome, FromDocument("SALES_RECEIPT", p.id), OfDocument(Entry("SALES_RECEIPT", p, ls)))
    ensures var ((t, filing), lines) := (FileVendorCredit(b, p, account, fallback), VendorCreditLines(p, account, fallback));
      match lines
      case Err(e) => t == b && filing == NotBuilt(e)
      case Ok(ls) =>
        filing.Filed? && Becomes(b, t, filing.outcome, FromDocument("SUPPLIER_CREDIT", p.id), OfDocument(Entry("SUPPLIER_CREDIT", p, ls)))
  {
    hide ReceiptLines, VendorCreditLines, PostDocument, Becomes;
    ReceiptsAtRate(p, account, fallback);
    var (receipt, credit) := (ReceiptLines(p, account, fallback), VendorCreditLines(p, account, fallback));
    if receipt.Ok? {
      AtRateIsClean(receipt.value, p.rate);
      EntryBecomes(b, Entry("SALES_RECEIPT", p, receipt.value));
    }
    if credit.Ok? {
      AtRateIsClean(credit.value, p.rate);
      EntryBecomes(b, Entry("SUPPLIER_CREDIT", p, credit.value));
    }
  }

  // ---- Payments ----

  /** The allocation books a gain: a difference upwards on a customer's payment, downwards on a vendor's. */
  predicate Gains(customer: bool, s: Pay.Setup, rate: real, a: Pay.Allocation) {
    var diff := Pay.BookedDifference(s.documentRates, rate)(a);
    if customer then diff > 0 else diff < 0
  }

  ghost predicate SomeGain(customer: bool, s: Pay.Setup, rate: real, allocations: seq<Pay.Allocation>) {
    exists a :: a in allocations && Gains(customer, s, rate, a)
  }

  function AccountsOf(lines: seq<PostingLine>): set<string> { set l | l in lines :: l.account }

  /** The accounts of realized lines: control where anything is booked, and those of the gains and losses there are. */
  function RealizedAccounts(gain: bool, loss: bool, control: string, s: Pay.Setup): set<string> {
    (if gain || loss then {control} else {})
    + (if gain && s.gain.Some? then {s.gain.value} else {}) + (if loss && s.loss.Some? then {s.loss.value} else {})
  }

  /** The shape of realized lines: none when nothing is booked; else balanced, positive, and on exactly these accounts. */
  ghost predicate Realized(lines: seq<PostingLine>, gain: bool, loss: bool, control: string, s: Pay.Setup) {
    && Clean(lines) && Sum(lines, DebitOf()) == Sum(lines, Credited()) && AccountsOf(lines) == RealizedAccounts(gain, loss, control, s)
    && (if gain || loss then Sum(lines, DebitOf()) > 0 && |lines| >= 2 else lines == [])
  }

  lemma {:induction false} RealizedIs(customer: bool, control: string, s: Pay.Setup, rate: real, allocations: seq<Pay.Allocation>)
    requires Pay.RealizedLines(customer, control, s, rate, allocations).Ok?
    ensures Realized(Pay.RealizedLines(customer, control, s, rate, allocations).value,
                     SomeGain(customer, s, rate, allocations), SomeGain(!customer, s, rate, allocations), control, s)
  {
    hide Pay.Booked, Pay.Difference, Pay.DifferencePair, Realized, SomeGain, Gains;
    if allocations == [] {
      NothingRealized(customer, control, s, rate);
    } else {
      var init, last := allocations[..|allocations| - 1], allocations[|allocations| - 1];
      assert allocations == init + [last];
      RealizedIs(customer, control, s, rate, init);
      SomeGainStep(customer, s, rate, init, last);
      SomeGainStep(!customer, s, rate, init, last);
      if Pay.Booked(last, s.documentRates, rate) {
        var pair := Pay.DifferencePair(customer, control, s.gain, s.loss, Pay.Difference(last, s.documentRates, rate)).value;
        Pay.BookedIsNotZero(last, s.documentRates, rate);
        PairRealized(customer, control, s, rate, last);
        RealizedAppend(Pay.RealizedLines(customer, control, s, rate, init).value, pair, SomeGain(customer, s, rate, init),
                       SomeGain(!customer, s, rate, init), Gains(customer, s, rate, last), Gains(!customer, s, rate, last), control, s);
      } else {
        NoGain(customer, s, rate, last);
      }
    }
  }

  lemma SomeGainStep(customer: bool, s: Pay.Setup, rate: real, init: seq<Pay.Allocation>, last: Pay.Allocation)
    ensures SomeGain(customer, s, rate, init + [last]) <==> SomeGain(customer, s, rate, init) || Gains(customer, s, rate, last)
  {
    hide Gains;
    assert last in init + [last];
  }

  lemma NoGain(customer: bool, s: Pay.Setup, rate: real, a: Pay.Allocation)
    requires !Pay.Booked(a, s.documentRates, rate)
    ensures !Gains(customer, s, rate, a) && !Gains(!customer, s, rate, a)
  {
    hide Pay.Booked;
  }

  lemma NothingRealized(customer: bool, control: string, s: Pay.Setup, rate: real)
    ensures Realized([], SomeGain(customer, s, rate, []), SomeGain(!customer, s, rate, []), control, s)
  {
  }

  lemma PairRealized(customer: bool, control: string, s: Pay.Setup, rate: real, a: Pay.Allocation)
    requires Pay.Booked(a, s.documentRates, rate) && Pay.Difference(a, s.documentRates, rate) != 0
    requires Pay.DifferencePair(customer, control, s.gain, s.loss, Pay.Difference(a, s.documentRates, rate)).Ok?
    ensures Realized(Pay.DifferencePair(customer, control, s.gain, s.loss, Pay.Difference(a, s.documentRates, rate)).value,
                     Gains(customer, s, rate, a), Gains(!customer, s, rate, a), control, s)
    ensures Gains(customer, s, rate, a) || Gains(!customer, s, rate, a)
  {
    hide Pay.Booked, Pay.Difference;
    var diff := Pay.Difference(a, s.documentRates, rate);
    var pair := Pay.DifferencePair(customer, control, s.gain, s.loss, diff).value;
    Pay.PairSums(customer, control, s, diff, DebitOf());
    Pay.PairSums(customer, control, s, diff, Credited());
    assert pair == [pair[0], pair[1]] && pair[0] in pair && pair[1] in pair;
    assert Pay.BookedDifference(s.documentRates, rate)(a) == diff;
    assert AccountsOf(pair) == {pair[0].account, pair[1].account};
  }

  lemma RealizedAppend(
      before: seq<PostingLine>, pair: seq<PostingLine>, gain: bool, loss: bool, gains: bool, loses: bool, control: string, s: Pay.Setup)
    requires Realized(before, gain, loss, control, s) && Realized(pair, gains, loses, control, s) && (gains || loses)
    ensures Realized(before + pair, gain || gains, loss || loses, control, s)
  {
    hide Sum, NonNegative;
    SumAppend(before, pair, DebitOf());
    SumAppend(before, pair, Credited());
    assert AccountsOf(before + pair) == AccountsOf(before) + AccountsOf(pair);
    assert RealizedAccounts(gain || gains, loss || loses, control, s)
        == RealizedAccounts(gain, loss, control, s) + RealizedAccounts(gains, loses, control, s);
    if before == [] { assert before + pair == pair; }
  }

  // ---- When a payment completes ----

  ghost predicate HasInUse(b: Books, account: Option<string>) { account.Some? && InUse(b.chart, account.value) }

  /** A foreign payment needs an account in use for its gains if it has any, and one for its losses. */
  ghost predicate CanRealize(b: Books, p: Pay.Payment, s: Pay.Setup) {
    && (SomeGain(Pay.FromCustomer(p), s, p.rate, p.allocations) ==> HasInUse(b, s.gain))
    && (SomeGain(!Pay.FromCustomer(p), s, p.rate, p.allocations) ==> HasInUse(b, s.loss))
  }

  /** What a payment needs: one subledger, an amount, an open date, its two accounts in use, and, if foreign, those it realizes on. */
  ghost predicate CanComplete(b: Books, p: Pay.Payment, s: Pay.Setup) {
    && Pay.FromCustomer(p) != Pay.ToVendor(p) && p.amount > 0 && !DayClosed(b.periods, p.date)
    && (exists settlement :: Pay.GoesThrough(p, s, settlement) && InUse(b.chart, settlement))
    && HasInUse(b, Pay.SettledControl(p, s))
    && (p.currency != s.base ==> CanRealize(b, p, s))
  }

  lemma PaymentProposal(customer: bool, settlement: string, control: string, p: Pay.Payment)
    ensures OfDocument(Pay.PaymentDocument(p, Pay.PaymentLines(customer, settlement, control, p)))
         == Proposal(p.date, p.amount, p.amount, {settlement, control})
    ensures p.amount > 0 ==> Clean(Pay.PaymentLines(customer, settlement, control, p))
  {
    var lines := Pay.PaymentLines(customer, settlement, control, p);
    assert lines == [lines[0], lines[1]];
    SumOfTwo(lines[0], lines[1], DebitOf());
    SumOfTwo(lines[0], lines[1], Credited());
    assert lines[0] in lines && lines[1] in lines;
  }

  lemma BalancedAcceptable(b: Books, x: Proposal)
    requires x.debit == x.credit
    ensures Acceptable(b, x) <==> x.debit > 0 && !DayClosed(b.periods, x.date) && forall id :: id in x.accounts ==> InUse(b.chart, id)
  {
  }

  lemma NotRefused(b: Books, t: Books, outcome: Outcome, origin: Origin, x: Proposal)
    requires Becomes(b, t, outcome, origin, x)
    ensures !outcome.Refused? <==> Acceptable(b, x)
  {
    hide Because;
    if outcome.Refused? && Acceptable(b, x) { AcceptedHasNoReason(b, x, outcome.why); }
  }

  lemma AcceptedHasNoReason(b: Books, x: Proposal, why: Refusal)
    requires Acceptable(b, x)
    ensures !Because(b, x, why)
  {
  }

  lemma DocumentTaken(b: Books, doc: Document)
    requires DistinctIds(b.chart) && (OfDocument(doc).debit > 0 ==> Clean(doc.lines))
    ensures !PostDocument(b, doc).1.Refused? <==> Acceptable(b, OfDocument(doc))
    ensures PostDocument(b, doc).0 == b.(rows := PostDocument(b, doc).0.rows)
  {
    hide PostDocument, DocumentRows, Acceptable, Because, OfDocument;
    DocumentOutcome(b, doc);
    if OfDocument(doc).debit > 0 {
      EntryBecomes(b, doc);
      NotRefused(b, PostDocument(b, doc).0, PostDocument(b, doc).1, FromDocument(doc.kind, doc.id), OfDocument(doc));
    } else if Acceptable(b, OfDocument(doc)) {
      AcceptedWeighs(b, OfDocument(doc));
    }
  }

  /** The accounts an entry was found for are those of the payment. */
  lemma EntryAccountsAre(p: Pay.Payment, s: Pay.Setup)
    ensures Pay.EntryOf(p, s).Ok? ==>
      var e := Pay.EntryOf(p, s).value;
      && Pay.FromCustomer(p) != Pay.ToVendor(p) && Pay.SettledControl(p, s) == Some(e.control) && Pay.GoesThrough(p, s, e.settlement)
      && e.lines == Pay.PaymentLines(Pay.FromCustomer(p), e.settlement, e.control, p)
      && (if p.currency == s.base then e.realized == []
          else Pay.RealizedLines(Pay.FromCustomer(p), e.control, s, p.rate, p.allocations) == Ok(e.realized))
    ensures Pay.EntryOf(p, s).Err? ==>
      || Pay.FromCustomer(p) == Pay.ToVendor(p) || Pay.SettledControl(p, s).None? || (forall settlement :: !Pay.GoesThrough(p, s, settlement))
      || (p.currency != s.base && exists control :: Pay.RealizedLines(Pay.FromCustomer(p), control, s, p.rate, p.allocations).Err?)
  {
    hide Pay.RealizedLines;
    var through := Pay.SettlementAccount(p, s.bank);
    var control := Pay.SettledControl(p, s);
    if through.Some? { assert Pay.GoesThrough(p, s, through.value); }
    if Pay.EntryOf(p, s).Err? && Pay.FromCustomer(p) != Pay.ToVendor(p) && control.Some? && through.Some? && p.currency != s.base {
      assert Pay.RealizedLines(Pay.FromCustomer(p), control.value, s, p.rate, p.allocations).Err?;
    }
  }

  lemma CannotRealize(b: Books, p: Pay.Payment, s: Pay.Setup, control: string)
    requires Pay.RealizedLines(Pay.FromCustomer(p), control, s, p.rate, p.allocations).Err?
    ensures !CanRealize(b, p, s)
  {
    hide Pay.RealizedLines, Pay.BookedDifference;
    Pay.RealizedBuiltIff(Pay.FromCustomer(p), control, s, p.rate, p.allocations);
    var missing := Pay.RealizedLines(Pay.FromCustomer(p), control, s, p.rate, p.allocations).error;
    var a :| a in p.allocations &&
      var diff := Pay.BookedDifference(s.documentRates, p.rate)(a);
      match missing
      case NoGainAccount => s.gain.None? && (if Pay.FromCustomer(p) then diff > 0 else diff < 0)
      case NoLossAccount => s.loss.None? && (if Pay.FromCustomer(p) then diff < 0 else diff > 0)
      case _ => false;
    assert Gains(Pay.FromCustomer(p), s, p.rate, a) || Gains(!Pay.FromCustomer(p), s, p.rate, a);
  }

  /** The realized entry of a payment whose control account is in use is accepted exactly when its gain and loss accounts are. */
  lemma RealizedTaken(b: Books, p: Pay.Payment, s: Pay.Setup, control: string, lines: seq<PostingLine>)
    requires DistinctIds(b.chart) && !DayClosed(b.periods, p.date) && InUse(b.chart, control)
    requires Pay.RealizedLines(Pay.FromCustomer(p), control, s, p.rate, p.allocations) == Ok(lines)
    ensures |lines| != 1
    ensures lines == [] ==> CanRealize(b, p, s)
    ensures lines != [] ==> (!PostDocument(b, Pay.RealizedDocument(p, s, lines)).1.Refused? <==> CanRealize(b, p, s))
  {
    hide PostDocument, InUse, DayClosed, SomeGain, Pay.RealizedLines, Sum;
    var customer := Pay.FromCustomer(p);
    var (gain, loss) := (SomeGain(customer, s, p.rate, p.allocations), SomeGain(!customer, s, p.rate, p.allocations));
    RealizedIs(customer, control, s, p.rate, p.allocations);
    GainHasAccount(customer, control, s, p.rate, p.allocations);
    var doc := Pay.RealizedDocument(p, s, lines);
    assert OfDocument(doc).accounts == AccountsOf(lines);
    DocumentTaken(b, doc);
    BalancedAcceptable(b, OfDocument(doc));
  }

  lemma GainHasAccount(customer: bool, control: string, s: Pay.Setup, rate: real, allocations: seq<Pay.Allocation>)
    requires Pay.RealizedLines(customer, control, s, rate, allocations).Ok?
    ensures (SomeGain(customer, s, rate, allocations) ==> s.gain.Some?) && (SomeGain(!customer, s, rate, allocations) ==> s.loss.Some?)
  {
    hide Pay.RealizedLines, Pay.BookedDifference;
    Pay.RealizedBuiltIff(customer, control, s, rate, allocations);
    assert !Pay.LacksAccount(customer, s, rate, allocations, Pay.NoGainAccount);
    assert !Pay.LacksAccount(customer, s, rate, allocations, Pay.NoLossAccount);
  }

  /** A payment completes exactly when it has what it needs; whether it was posted before makes no difference. */
  lemma PaymentCompletesIff(b: Books, p: Pay.Payment, s: Pay.Setup)
    requires DistinctIds(b.chart)
    ensures Pay.PostPayment(b, p, s).1.Complete? <==> CanComplete(b, p, s)
  {
    hide PostDocument, InUse, DayClosed, CanRealize, Pay.EntryOf, Pay.RealizedLines, Pay.FromCustomer, Pay.ToVendor, Pay.PaymentLines;
    EntryAccountsAre(p, s);
    match Pay.EntryOf(p, s)
    case Err(_) =>
      if p.currency != s.base && exists control :: Pay.RealizedLines(Pay.FromCustomer(p), control, s, p.rate, p.allocations).Err? {
        var control :| Pay.RealizedLines(Pay.FromCustomer(p), control, s, p.rate, p.allocations).Err?;
        CannotRealize(b, p, s, control);
      }
    case Ok(e) =>
      var first := Pay.PaymentDocument(p, e.lines);
      PaymentProposal(Pay.FromCustomer(p), e.settlement, e.control, p);
      DocumentTaken(b, first);
      BalancedAcceptable(b, OfDocument(first));
      var paid := PostDocument(b, first).0;
      if Acceptable(b, OfDocument(first)) && p.currency != s.base {
        RealizedTaken(paid, p, s, e.control, e.realized);
        SameNeeds(b, paid, p, s);
      }
  }

  lemma SameNeeds(b: Books, paid: Books, p: Pay.Payment, s: Pay.Setup)
    requires paid.chart == b.chart
    ensures CanRealize(paid, p, s) == CanRealize(b, p, s)
  {
  }

  // ---- Bank transfers ----

  lemma TransferProposal(s: Bank.Bank, x: Bank.Transfer)
    requires Bank.HaveLedgers(s, x)
    ensures OfDocument(Bank.TransferEntry(s, x))
         == Proposal(x.date, x.amount, x.amount, {s.accounts[x.from].ledger.value, s.accounts[x.to].ledger.value})
    ensures x.amount > 0 ==> Clean(Bank.TransferEntry(s, x).lines)
  {
    var lines := Bank.TransferEntry(s, x).lines;
    assert lines == [lines[0], lines[1]];
    SumOfTwo(lines[0], lines[1], DebitOf());
    SumOfTwo(lines[0], lines[1], Credited());
    assert lines[0] in lines && lines[1] in lines;
  }

  /**
   A transfer between accounts with ledger accounts goes through exactly when they are two
   open ones, its amount is positive and there, its date is open, both ledger accounts are in
   use, and its number is not a new one under the unique index.
   */
  lemma TransferCompletesIff(s: Bank.Bank, x: Bank.Transfer)
    requires DistinctIds(s.books.chart) && Bank.HaveLedgers(s, x)
    ensures !Bank.CreateTransfer(s, x).1.Rejected? <==>
      && x.from != x.to && x.amount > 0 && Records.Active(s, x.from) && Records.Active(s, x.to) && s.accounts[x.from].current >= x.amount
      && (x.no in s.transfers || !s.indexed)
      && !DayClosed(s.books.periods, x.date)
      && InUse(s.books.chart, s.accounts[x.from].ledger.value) && InUse(s.books.chart, s.accounts[x.to].ledger.value)
  {
    hide PostDocument, InUse, DayClosed;
    TransferProposal(s, x);
    DocumentTaken(s.books, Bank.TransferEntry(s, x));
    BalancedAcceptable(s.books, OfDocument(Bank.TransferEntry(s, x)));
  }

  // ---- Revaluations ----

  lemma {:induction false} AdjustmentsClean(lines: seq<Fx.PreviewLine>, s: Fx.Setup)
    ensures Clean(Fx.EntryLines(lines, s))
  {
    if lines != [] { AdjustmentsClean(lines[..|lines| - 1], s); }
  }

  /**
   A revaluation with something to revalue and an entry of two lines or more is marked as
   posted exactly when the ledger accepts the entry, and stops for the reason it does not.
   */
  lemma RevaluationPostsIff(b: Books, id: string, date: int, s: Fx.Setup, rates: Fx.Rates, cap: nat)
    requires DistinctIds(b.chart)
    ensures var lines := Fx.PreviewLines(b.chart, b.rows, date, s.base, rates, cap);
      var x := OfDocument(Document("FX_REVALUATION", id, date, s.base, 1.0, Fx.EntryLines(lines, s)));
      var outcome := Fx.RunRevaluation(b, id, date, s, rates, cap).1;
      var lone := |lines| == 1 && if lines[0].adjustment > 0 then s.gain.None? else s.loss.None?;
      lines != [] && !lone ==>
        && (outcome == Fx.MarkedPosted(true) <==> Acceptable(b, x))
        && forall why :: outcome == Fx.Stopped(why) <==> Because(b, x, why)
  {
    hide Fx.PreviewLines, Fx.EntryLines, PostDocument, Acceptable, Because;
    var lines := Fx.PreviewLines(b.chart, b.rows, date, s.base, rates, cap);
    var entry := Fx.EntryLines(lines, s);
    Fx.EntryLength(lines, s);
    AdjustmentsClean(lines, s);
    EntryBecomes(b, Fx.RevaluationDocument(id, date, s, entry));
  }
}
