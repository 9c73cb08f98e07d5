/**
 Invoices, credit notes, bills, expenses, sales receipts and vendor credits on the books: what
 posting one moves, in its own currency and in the base currency, and the rows that do it.
 */
module PostedDocuments {
  import opened Wrappers
  import opened Sums
  import opened Money
  import opened Accounts
  import opened Ledger
  import opened Posting
  import opened Books
  import opened Documents

  /** A document that cannot be built stops with its error; one that has the wrong status is passed over. */
  datatype Filing = NotBuilt(error: BuildError) | Filed(outcome: Outcome)

  function Entry(kind: string, p: Paper, lines: seq<PostingLine>): Document {
    Document(kind, p.id, p.date, p.currency, p.rate, lines)
  }

  /** Bills and expenses of fewer than two lines are passed over. */
  function FileTwoLines(b: Books, kind: string, p: Paper, lines: seq<PostingLine>): (Books, Filing) {
    if |lines| < 2 then (b, Filed(Done(|b.rows|)))
    else
      var (posted, outcome) := PostDocument(b, Entry(kind, p, lines));
      (posted, Filed(outcome))
  }

  function FileBill(b: Books, p: Paper, received: bool, expense: Option<string>, payable: Option<string>): (Books, Filing) {
    if !received then (b, Filed(Done(|b.rows|))) else FileTwoLines(b, "BILL", p, PurchaseLines(p, expense, payable))
  }

  function FileExpense(
      b: Books, p: Paper, approved: bool, expense: Option<string>, settlement: Option<string>, imported: bool, bank: Option<string>)
    : (Books, Filing)
  {
    if !approved then (b, Filed(Done(|b.rows|)))
    else
      match ExpenseLines(p, expense, settlement, imported, bank)
      case Err(e) => (b, NotBuilt(e))
      case Ok(lines) => FileTwoLines(b, "EXPENSE", p, lines)
  }

  function FileReceipt(b: Books, p: Paper, deposit: Option<string>, revenue: Option<string>): (Books, Filing) {
    match ReceiptLines(p, deposit, revenue)
    case Err(e) => (b, NotBuilt(e))
    case Ok(lines) =>
      var (posted, outcome) := PostDocument(b, Entry("SALES_RECEIPT", p, lines));
      (posted, Filed(outcome))
  }

  function FileVendorCredit(b: Books, p: Paper, payable: Option<string>, expense: Option<string>): (Books, Filing) {
    match VendorCreditLines(p, payable, expense)
    case Err(e) => (b, NotBuilt(e))
    case Ok(lines) =>
      var (posted, outcome) := PostDocument(b, Entry("SUPPLIER_CREDIT", p, lines));
      (posted, Filed(outcome))
  }

  // ---- Lines at the document's rate ----

  predicate AtRate(l: PostingLine, rate: real) {
    NonNegative(l) && !(l.debit > 0 && l.credit > 0) && l.rate == Some(rate)
  }

  ghost predicate AllAtRate(lines: seq<PostingLine>, rate: real) { forall l :: l in lines ==> AtRate(l, rate) }

  /** No line has a negative side or both above zero. */
  ghost predicate Clean(lines: seq<PostingLine>) {
    forall l :: l in lines ==> NonNegative(l) && !(l.debit > 0 && l.credit > 0)
  }

  /** Tax lines have one side each, as those built from components do. */
  ghost predicate TaxOneSided(p: Paper) { Clean(p.taxLines) }

  lemma MapAtRate(lines: seq<PostingLine>, f: PostingLine -> PostingLine, rate: real)
    requires forall l :: l in lines ==> AtRate(f(l), rate)
    ensures AllAtRate(Map(lines, f), rate)
  {
    forall l | l in Map(lines, f) ensures AtRate(l, rate) {
      var i :| 0 <= i < |lines| && Map(lines, f)[i] == l;
      assert lines[i] in lines;
    }
  }

  lemma TaxAtRate(p: Paper)
    requires TaxOneSided(p)
    ensures AllAtRate(Map(p.taxLines, WithRate(p.rate)), p.rate) && AllAtRate(Map(p.taxLines, SwappedAt(p.rate)), p.rate)
  {
    MapAtRate(p.taxLines, WithRate(p.rate), p.rate);
    MapAtRate(p.taxLines, SwappedAt(p.rate), p.rate);
  }

  lemma {:induction false} ItemsAtRate(items: seq<Item>, fallback: Option<string>, debit: bool, rate: real)
    ensures AllAtRate(ItemLines(items, fallback, debit, rate), rate)
  {
    if items != [] { ItemsAtRate(items[..|items| - 1], fallback, debit, rate); }
  }

  lemma {:induction false} CreditsAtRate(items: seq<Item>, fallback: Option<string>, rate: real)
    requires CreditLines(items, fallback, rate).Ok?
    ensures AllAtRate(CreditLines(items, fallback, rate).value, rate)
  {
    if items != [] { CreditsAtRate(items[..|items| - 1], fallback, rate); }
  }

  lemma InvoicesAtRate(p: Paper, creditNote: bool, control: Option<string>, fallback: Option<string>)
    requires TaxOneSided(p)
    ensures AllAtRate(InvoiceLines(p, creditNote, control, fallback), p.rate)
    ensures AllAtRate(PurchaseLines(p, fallback, control), p.rate)
  {
    hide ItemLines, AnyPositive;
    TaxAtRate(p);
    ItemsAtRate(p.items, fallback, creditNote, p.rate);
    ItemsAtRate(p.items, fallback, true, p.rate);
  }

  lemma ReceiptsAtRate(p: Paper, account: Option<string>, fallback: Option<string>)
    requires TaxOneSided(p) && p.total >= 0
    ensures ReceiptLines(p, account, fallback).Ok? ==> AllAtRate(ReceiptLines(p, account, fallback).value, p.rate)
    ensures VendorCreditLines(p, account, fallback).Ok? ==> AllAtRate(VendorCreditLines(p, account, fallback).value, p.rate)
  {
    hide CreditLines;
    TaxAtRate(p);
    var receipt, credit := Filter(p.items, PostingItem(true)), Filter(p.items, PostingItem(false));
    if CreditLines(receipt, fallback, p.rate).Ok? { CreditsAtRate(receipt, fallback, p.rate); }
    if CreditLines(credit, fallback, p.rate).Ok? { CreditsAtRate(credit, fallback, p.rate); }
  }

  // ---- What they move ----

  predicate OfPaper(r: Row, kind: string, p: Paper) {
    && r.date == p.date && r.currency == p.currency && r.origin == FromDocument(kind, p.id)
    && r.base.Base? && r.base.rate == p.rate
  }

  /**
   The account has moved by this much over every window that holds the document's date, and
   in base currency by that at the document's rate, to within one unit. Nothing but new rows
   does it, each with the document's kind and number, date, currency and rate.
   */
  ghost predicate MovedBy(b: Books, t: Books, kind: string, p: Paper, account: string, w: Window, net: int) {
    && Movement(t.rows, account, w) - Movement(b.rows, account, w) == OnIf(Within(w, p.date), net)
    && NearBy(Sum(t.rows, RowBaseNetOn(account)) - Sum(b.rows, RowBaseNetOn(account)), Exact(net, p.rate), 2)
    && t == b.(rows := t.rows) && |b.rows| <= |t.rows| && t.rows[..|b.rows|] == b.rows
    && forall i :: |b.rows| <= i < |t.rows| ==> OfPaper(t.rows[i], kind, p)
  }

  lemma RowsOfPaper(p: Paper, doc: Document, rows: seq<Row>)
    requires doc.date == p.date && doc.currency == p.currency && doc.id == p.id
    requires forall row :: row in DocumentRows(doc) ==> row.base.Base? && row.base.rate == p.rate
    ensures var all := rows + DocumentRows(doc); forall i :: |rows| <= i < |all| ==> OfPaper(all[i], doc.kind, p)
  {
    var all := rows + DocumentRows(doc);
    forall i | |rows| <= i < |all| ensures OfPaper(all[i], doc.kind, p) {
      var row := DocumentRows(doc)[i - |rows|];
      assert row in DocumentRows(doc);
      RowIsConverted(doc, row);
    }
  }

  lemma EntryMoves(b: Books, kind: string, p: Paper, lines: seq<PostingLine>, account: string, w: Window)
    requires AllAtRate(lines, p.rate) && p.rate != 0.0
    requires PostDocument(b, Entry(kind, p, lines)).0 != b
    ensures MovedBy(b, PostDocument(b, Entry(kind, p, lines)).0, kind, p, account, w, Sum(lines, NetOn(account)))
  {
    hide DocumentRows, Sum, Exact, NearBy, Movement, ValidateContext, HasOrigin, Filter;
    var doc := Entry(kind, p, lines);
    FirstPostingAppends(b, doc);
    MovesAtRate(doc, p.rate, account);
    SumSame(lines, KeptOnly(NetOn(account)), NetOn(account));
    SumAppend(b.rows, DocumentRows(doc), RowBaseNetOn(account));
    MovementAppend(b.rows, DocumentRows(doc), account, w);
    DocumentMovement(doc, account, w);
    GroupKeepsSum(lines, NetOn(account));
    RowsOfPaper(p, doc, b.rows);
    WithinOne(Sum(DocumentRows(doc), RowBaseNetOn(account)), Exact(Sum(lines, NetOn(account)), p.rate),
             |Filter(DocumentRows(doc), RowOn(account))|);
  }

  function Only(account: string): string -> bool { (a: string) => a == account }

  lemma NetOnly(lines: seq<PostingLine>, account: string)
    ensures Sum(lines, NetIn(Only(account))) == Sum(lines, NetOn(account))
  {
    SumSame(lines, NetIn(Only(account)), NetOn(account));
  }

  /** A posted invoice: the receivable takes the total, each line its own amount, and tax comes on top; a credit note the opposite. */
  lemma InvoicePosted(
      b: Books, p: Paper, creditNote: bool, sent: bool, receivable: Option<string>, revenue: Option<string>, account: string, w: Window)
    requires TaxOneSided(p) && p.rate != 0.0
    requires PostInvoice(b, p, creditNote, sent, receivable, revenue).0 != b
    ensures var owed := OnIf(receivable == Some(account) && p.total > 0, p.total);
      var net := owed - BodyWorth(p, revenue, Only(account)) + Sum(p.taxLines, NetOn(account));
      sent && MovedBy(b, PostInvoice(b, p, creditNote, sent, receivable, revenue).0, "INVOICE", p, account, w, if creditNote then -net else net)
  {
    hide InvoiceLines, BodyWorth, PostDocument, MovedBy, Sum;
    var lines := InvoiceLines(p, creditNote, receivable, revenue);
    InvoicesAtRate(p, creditNote, receivable, revenue);
    EntryMoves(b, "INVOICE", p, lines, account, w);
    InvoiceMoves(p, creditNote, receivable, revenue, Only(account));
    NetOnly(lines, account);
    NetOnly(p.taxLines, account);
  }

  /** What a bill or expense puts on an account. */
  function PurchaseNet(p: Paper, expense: Option<string>, paying: Option<string>, account: string): int {
    BodyWorth(p, expense, Only(account)) + (if p.tax > 0 then Sum(p.taxLines, NetOn(account)) else 0)
    - OnIf(paying == Some(account) && p.total > 0, p.total)
  }

  lemma PurchaseNetIs(p: Paper, expense: Option<string>, paying: Option<string>, account: string)
    ensures Sum(PurchaseLines(p, expense, paying), NetOn(account)) == PurchaseNet(p, expense, paying, account)
  {
    hide PurchaseLines, BodyWorth, Sum;
    PurchaseMoves(p, expense, paying, Only(account));
    NetOnly(PurchaseLines(p, expense, paying), account);
    NetOnly(p.taxLines, account);
  }

  lemma BillPosted(
      b: Books, p: Paper, received: bool, expense: Option<string>, payable: Option<string>, account: string, w: Window)
    requires TaxOneSided(p) && p.rate != 0.0
    requires FileBill(b, p, received, expense, payable).0 != b
    ensures received
    ensures MovedBy(b, FileBill(b, p, received, expense, payable).0, "BILL", p, account, w, PurchaseNet(p, expense, payable, account))
  {
    hide PurchaseLines, PurchaseNet, PostDocument, MovedBy, Sum;
    InvoicesAtRate(p, false, payable, expense);
    EntryMoves(b, "BILL", p, PurchaseLines(p, expense, payable), account, w);
    PurchaseNetIs(p, expense, payable, account);
  }

  /**
   An expense is paid from the account it names, or from the default bank when it is not
   imported; without lines its subtotal is what the total leaves after tax.
   */
  lemma ExpensePosted(
      b: Books, p: Paper, approved: bool, expense: Option<string>, settlement: Option<string>, imported: bool, bank: Option<string>,
      account: string, w: Window)
    requires TaxOneSided(p) && p.rate != 0.0
    requires FileExpense(b, p, approved, expense, settlement, imported, bank).0 != b
    ensures approved && (settlement.None? ==> !imported)
    ensures var paying := match settlement case Some(own) => Some(own) case None => bank;
      var left := p.(subtotal := if p.total > p.tax then p.total - p.tax else 0);
      MovedBy(b, FileExpense(b, p, approved, expense, settlement, imported, bank).0, "EXPENSE", p, account, w,
              PurchaseNet(left, expense, paying, account))
  {
    hide PurchaseLines, PurchaseNet, PostDocument, MovedBy, Sum;
    var paying := match settlement case Some(own) => Some(own) case None => bank;
    var left := p.(subtotal := if p.total > p.tax then p.total - p.tax else 0);
    var lines := PurchaseLines(left, expense, paying);
    assert ExpenseLines(p, expense, settlement, imported, bank) == Ok(lines);
    InvoicesAtRate(left, false, paying, expense);
    EntryMoves(b, "EXPENSE", p, lines, account, w);
    PurchaseNetIs(left, expense, paying, account);
  }

  /** A posted receipt: the deposit account takes the total, and sales less discounts and tax are credited. */
  lemma ReceiptPosted(b: Books, p: Paper, deposit: Option<string>, revenue: Option<string>, account: string, w: Window)
    requires TaxOneSided(p) && p.rate != 0.0 && p.total >= 0
    requires FileReceipt(b, p, deposit, revenue).0 != b
    ensures MovedBy(b, FileReceipt(b, p, deposit, revenue).0, "SALES_RECEIPT", p, account, w,
              OnIf(deposit == Some(account), p.total) - Sum(p.items, PostedIn(true, revenue, Only(account)))
              + if p.tax > 0 then Sum(p.taxLines, NetOn(account)) else 0)
  {
    hide ReceiptLines, PostedIn, PostDocument, MovedBy, Sum;
    var lines := ReceiptLines(p, deposit, revenue).value;
    ReceiptsAtRate(p, deposit, revenue);
    EntryMoves(b, "SALES_RECEIPT", p, lines, account, w);
    ReceiptMoves(p, deposit, revenue, Only(account));
    ReceiptTaken(p, deposit, revenue);
    NetOnly(lines, account);
    NetOnly(p.taxLines, account);
  }

  /** A posted vendor credit: the payable takes the total, and the lines and the purchase tax go back. */
  lemma VendorCreditPosted(b: Books, p: Paper, payable: Option<string>, expense: Option<string>, account: string, w: Window)
    requires TaxOneSided(p) && p.rate != 0.0 && p.total >= 0
    requires FileVendorCredit(b, p, payable, expense).0 != b
    ensures MovedBy(b, FileVendorCredit(b, p, payable, expense).0, "SUPPLIER_CREDIT", p, account, w,
              OnIf(payable == Some(account), p.total) - Sum(p.items, PostedIn(false, expense, Only(account)))
              - if p.tax > 0 then Sum(p.taxLines, NetOn(account)) else 0)
  {
    hide VendorCreditLines, PostedIn, PostDocument, MovedBy, Sum;
    var lines := VendorCreditLines(p, payable, expense).value;
    ReceiptsAtRate(p, payable, expense);
    EntryMoves(b, "SUPPLIER_CREDIT", p, lines, account, w);
    VendorCreditMoves(p, payable, expense, Only(account));
    VendorCreditTaken(p, payable, expense);
    NetOnly(lines, account);
    NetOnly(p.taxLines, account);
  }

  // ---- Which documents can be built ----

  /** Some line to be posted has no account, and there is none to fall back on. */
  ghost predicate Homeless(items: seq<Item>, receipt: bool, fallback: Option<string>) {
    fallback.None? && exists item :: item in items && IsPosted(item, receipt) && item.account.None?
  }

  lemma {:induction false} CreditLinesOk(items: seq<Item>, fallback: Option<string>, rate: real)
    ensures CreditLines(items, fallback, rate).Ok? <==> fallback.Some? || forall item :: item in items ==> item.account.Some?
    ensures CreditLines(items, fallback, rate).Err? ==> CreditLines(items, fallback, rate).error.ItemWithoutAccount?
  {
    if items != [] {
      var init, last := items[..|items| - 1], items[|items| - 1];
      assert items == init + [last];
      CreditLinesOk(init, fallback, rate);
    }
  }

  /** A receipt is built exactly when it has a deposit account, its lines come to its subtotal, and each has an account. */
  lemma ReceiptTaken(p: Paper, deposit: Option<string>, revenue: Option<string>)
    ensures var (lines, apart) := (ReceiptLines(p, deposit, revenue), Abs(Sum(p.items, PostedAmount(true)) - p.subtotal) > CENT);
      && (lines == Err(NoSettlement) <==> deposit.None?)
      && (lines == Err(SubtotalMismatch) <==> deposit.Some? && apart)
      && (lines == Err(ItemWithoutAccount) <==> deposit.Some? && !apart && Homeless(p.items, true, revenue))
      && (lines.Ok? <==> deposit.Some? && !apart && !Homeless(p.items, true, revenue))
  {
    hide CreditLines, Filter, TaxPart;
    PostedTotal(p.items, true);
    CreditLinesOk(Filter(p.items, PostingItem(true)), revenue, p.rate);
  }

  lemma VendorCreditTaken(p: Paper, payable: Option<string>, expense: Option<string>)
    ensures var (lines, apart) := (VendorCreditLines(p, payable, expense), Abs(Sum(p.items, PostedAmount(false)) - p.subtotal) > CENT);
      && (lines == Err(NoPayable) <==> payable.None?)
      && (lines == Err(SubtotalMismatch) <==> payable.Some? && apart)
      && (lines == Err(ItemWithoutAccount) <==> payable.Some? && !apart && Homeless(p.items, false, expense))
      && (lines.Ok? <==> payable.Some? && !apart && !Homeless(p.items, false, expense))
  {
    hide CreditLines, Filter, TaxPart;
    PostedTotal(p.items, false);
    CreditLinesOk(Filter(p.items, PostingItem(false)), expense, p.rate);
  }

  // ---- Every line is among them, with its cost centre ----

  predicate Stands(item: Item, fallback: Option<string>, account: string) {
    item.account == Some(account) || (item.account.None? && fallback == Some(account))
  }

  lemma {:induction false} LineOfItem(p: Paper, items: seq<Item>, fallback: Option<string>, debit: bool, item: Item, account: string)
    requires item in items && item.amount > 0 && Stands(item, fallback, account)
    ensures (if debit != item.reduction then PostingLine(account, item.amount, 0, item.costCenter, Some(p.rate))
             else PostingLine(account, 0, item.amount, item.costCenter, Some(p.rate))) in ItemLines(items, fallback, debit, p.rate)
  {
    var init, last := items[..|items| - 1], items[|items| - 1];
    assert items == init + [last];
    if item != last { LineOfItem(p, init, fallback, debit, item, account); }
  }

  /** Every positive line with an account has its posting line: on its side, with its amount and cost centre, at the document's rate. */
  lemma ItemIsPosted(p: Paper, control: Option<string>, fallback: Option<string>, item: Item, account: string)
    requires item in p.items && item.amount > 0 && Stands(item, fallback, account)
    ensures var up := PostingLine(account, item.amount, 0, item.costCenter, Some(p.rate));
      var down := PostingLine(account, 0, item.amount, item.costCenter, Some(p.rate));
      && (if item.reduction then up else down) in InvoiceLines(p, false, control, fallback)
      && (if item.reduction then down else up) in InvoiceLines(p, true, control, fallback)
      && (if item.reduction then down else up) in PurchaseLines(p, fallback, control)
  {
    hide ItemLines, Map, TaxPart, ControlLine;
    LineOfItem(p, p.items, fallback, false, item, account);
    LineOfItem(p, p.items, fallback, true, item, account);
    assert Positive(item);
  }

  lemma {:induction false} LineOfCredit(items: seq<Item>, fallback: Option<string>, rate: real, item: Item, account: string)
    requires CreditLines(items, fallback, rate).Ok? && item in items && item.amount != 0 && Stands(item, fallback, account)
    ensures (if item.amount > 0 then PostingLine(account, 0, item.amount, item.costCenter, Some(rate))
             else PostingLine(account, -item.amount, 0, item.costCenter, Some(rate))) in CreditLines(items, fallback, rate).value
  {
    var init, last := items[..|items| - 1], items[|items| - 1];
    assert items == init + [last];
    if item != last { LineOfCredit(init, fallback, rate, item, account); }
  }

  /** The same of receipts, discounts on the debit side, and of vendor credits. */
  lemma CreditIsPosted(p: Paper, control: Option<string>, fallback: Option<string>, item: Item, account: string)
    requires item in p.items && Stands(item, fallback, account)
    ensures ReceiptLines(p, control, fallback).Ok? && IsPosted(item, true) ==>
      (if item.amount > 0 then PostingLine(account, 0, item.amount, item.costCenter, Some(p.rate))
       else PostingLine(account, -item.amount, 0, item.costCenter, Some(p.rate))) in ReceiptLines(p, control, fallback).value
    ensures VendorCreditLines(p, control, fallback).Ok? && IsPosted(item, false) ==>
      PostingLine(account, 0, item.amount, item.costCenter, Some(p.rate)) in VendorCreditLines(p, control, fallback).value
  {
    hide CreditLines, TaxPart;
    if ReceiptLines(p, control, fallback).Ok? && IsPosted(item, true) {
      LineOfCredit(Filter(p.items, PostingItem(true)), fallback, p.rate, item, account);
    }
    if VendorCreditLines(p, control, fallback).Ok? && IsPosted(item, false) {
      LineOfCredit(Filter(p.items, PostingItem(false)), fallback, p.rate, item, account);
    }
  }
}
