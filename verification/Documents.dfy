/** Building the posting lines of invoices, credit notes, bills, expenses, sales receipts and vendor credits. */
module Documents {
  import opened Wrappers
  import opened Sums
  import opened Money
  import opened Accounts
  import opened Ledger
  import opened Posting
  import opened Books

  /** A document line; `posts` says that its type carries an amount to post, `reduction` that it reduces the document. */
  datatype Item = Item(account: Option<string>, amount: int, reduction: bool, posts: bool, costCenter: Option<string>)

  /** Header amounts, lines, the tax lines built elsewhere, and the document's exchange rate. */
  datatype Paper = Paper(
    id: string, date: int, currency: string, rate: real, subtotal: int, tax: int, total: int,
    items: seq<Item>, taxLines: seq<PostingLine>)

  datatype BuildError = SubtotalMismatch | ItemWithoutAccount | NoSettlement | NoPayable

  function LineOn(account: string, amount: int, debit: bool, costCenter: Option<string>, rate: real): PostingLine {
    if debit then PostingLine(account, amount, 0, costCenter, Some(rate))
    else PostingLine(account, 0, amount, costCenter, Some(rate))
  }

  function AccountOf(item: Item, fallback: Option<string>): Option<string> {
    if item.account.Some? then item.account else fallback
  }

  function WithRate(rate: real): PostingLine -> PostingLine { (l: PostingLine) => l.(rate := Some(rate)) }
  function SwappedAt(rate: real): PostingLine -> PostingLine {
    (l: PostingLine) => l.(debit := l.credit, credit := l.debit, rate := Some(rate))
  }

  // ---- Lines with a positive amount, on one side unless they reduce ----

  predicate Positive(item: Item) { item.amount > 0 }

  predicate AnyPositive(items: seq<Item>) { exists item :: item in items && Positive(item) }

  /** The line of one item: none without a positive amount or an account. */
  function ItemLine(item: Item, fallback: Option<string>, debit: bool, rate: real): seq<PostingLine> {
    var account := AccountOf(item, fallback);
    if !Positive(item) || account.None? then []
    else [LineOn(account.value, item.amount, debit != item.reduction, item.costCenter, rate)]
  }

  function ItemLines(items: seq<Item>, fallback: Option<string>, debit: bool, rate: real): seq<PostingLine> {
    if items == [] then []
    else ItemLines(items[..|items| - 1], fallback, debit, rate) + ItemLine(items[|items| - 1], fallback, debit, rate)
  }

  /** The positive lines, or one line of the subtotal when there are none. */
  function BodyLines(p: Paper, fallback: Option<string>, debit: bool): seq<PostingLine> {
    if AnyPositive(p.items) then ItemLines(p.items, fallback, debit, p.rate)
    else if fallback.Some? && p.subtotal > 0 then [LineOn(fallback.value, p.subtotal, debit, None, p.rate)]
    else []
  }

  method BuildItemLines(items: seq<Item>, fallback: Option<string>, debit: bool, rate: real) returns (lines: seq<PostingLine>)
    ensures lines == ItemLines(items, fallback, debit, rate)
  {
    lines := [];
    for i := 0 to |items|
      invariant lines == ItemLines(items[..i], fallback, debit, rate)
    {
      assert items[..i + 1][..i] == items[..i];
      var item := items[i];
      if item.amount <= 0 { continue; }
      var account := if item.account.Some? then item.account else fallback;
      if account.None? { continue; }
      lines := lines + [LineOn(account.value, item.amount, debit != item.reduction, item.costCenter, rate)];
    }
    assert items[..|items|] == items;
  }

  method BuildBody(p: Paper, fallback: Option<string>, debit: bool) returns (lines: seq<PostingLine>)
    ensures lines == BodyLines(p, fallback, debit)
  {
    lines := [];
    if AnyPositive(p.items) {
      lines := BuildItemLines(p.items, fallback, debit, p.rate);
    } else if fallback.Some? && p.subtotal > 0 {
      lines := [LineOn(fallback.value, p.subtotal, debit, None, p.rate)];
    }
  }

  /** Tax lines take the document's rate; credit notes and vendor credits swap their sides. */
  method BuildTaxLines(taxLines: seq<PostingLine>, swap: bool, rate: real) returns (lines: seq<PostingLine>)
    ensures lines == Map(taxLines, if swap then SwappedAt(rate) else WithRate(rate))
  {
    var change := if swap then SwappedAt(rate) else WithRate(rate);
    lines := [];
    for i := 0 to |taxLines|
      invariant lines == Map(taxLines[..i], change)
    {
      MapStep(taxLines[..i], taxLines[i], change);
      assert taxLines[..i + 1] == taxLines[..i] + [taxLines[i]];
      lines := lines + [change(taxLines[i])];
    }
    assert taxLines[..|taxLines|] == taxLines;
  }

  /** The line of the control account, when there is one to post to and something to post. */
  function ControlLine(p: Paper, control: Option<string>, debit: bool): seq<PostingLine> {
    if control.Some? && p.total > 0 then [LineOn(control.value, p.total, debit, None, p.rate)] else []
  }

  // ---- Invoices and credit notes ----

  function InvoiceLines(p: Paper, creditNote: bool, receivable: Option<string>, revenue: Option<string>): seq<PostingLine> {
    ControlLine(p, receivable, !creditNote)
    + BodyLines(p, revenue, creditNote)
    + Map(p.taxLines, if creditNote then SwappedAt(p.rate) else WithRate(p.rate))
  }

  method BuildInvoice(p: Paper, creditNote: bool, receivable: Option<string>, revenue: Option<string>)
    returns (lines: seq<PostingLine>)
    ensures lines == InvoiceLines(p, creditNote, receivable, revenue)
  {
    hide BodyLines;
    lines := ControlLine(p, receivable, !creditNote);
    var body := BuildBody(p, revenue, creditNote);
    var tax := BuildTaxLines(p.taxLines, creditNote, p.rate);
    lines := lines + body + tax;
  }

  // ---- Bills and expenses ----

  function TaxPart(p: Paper, swap: bool): seq<PostingLine> {
    if p.tax > 0 then Map(p.taxLines, if swap then SwappedAt(p.rate) else WithRate(p.rate)) else []
  }

  /** Both debit their lines and credit the paying or payable account last. */
  function PurchaseLines(p: Paper, expense: Option<string>, paying: Option<string>): seq<PostingLine> {
    BodyLines(p, expense, true) + TaxPart(p, false) + ControlLine(p, paying, false)
  }

  method BuildPurchase(p: Paper, expense: Option<string>, paying: Option<string>) returns (lines: seq<PostingLine>)
    ensures lines == PurchaseLines(p, expense, paying)
  {
    hide BodyLines;
    lines := BuildBody(p, expense, true);
    if p.tax > 0 {
      var tax := BuildTaxLines(p.taxLines, false, p.rate);
      lines := lines + tax;
    } else {
      assert lines + [] == lines;
    }
    lines := lines + ControlLine(p, paying, false);
  }

  /** An expense's subtotal is what the total leaves after tax; an imported one must name its paying account. */
  function ExpenseLines(p: Paper, expense: Option<string>, settlement: Option<string>, imported: bool, bank: Option<string>)
    : Result<seq<PostingLine>, BuildError>
  {
    if settlement.None? && imported then Err(NoSettlement)
    else
      var subtotal := if p.total - p.tax > 0 then p.total - p.tax else 0;
      Ok(PurchaseLines(p.(subtotal := subtotal), expense, if settlement.Some? then settlement else bank))
  }

  // ---- Sales receipts and vendor credits ----

  /** Discounts come as negative lines and are debited. */
  predicate ReceiptPosts(item: Item) { item.posts && Abs(item.amount) > 1 }
  predicate CreditPosts(item: Item) { item.posts && item.amount > 0 }

  function PostingItem(receipt: bool): Item -> bool {
    (item: Item) => if receipt then ReceiptPosts(item) else CreditPosts(item)
  }
  function ItemAmount(): Item -> int { (item: Item) => item.amount }

  function CreditLines(items: seq<Item>, fallback: Option<string>, rate: real): Result<seq<PostingLine>, BuildError> {
    if items == [] then Ok([])
    else
      var last := items[|items| - 1];
      var before := CreditLines(items[..|items| - 1], fallback, rate);
      var account := AccountOf(last, fallback);
      if before.Err? then before
      else if account.None? then Err(ItemWithoutAccount)
      else Ok(before.value + [LineOn(account.value, Abs(last.amount), last.amount < 0, last.costCenter, rate)])
  }

  /** The lines must add up to the subtotal, to within a hundredth. */
  function ReceiptLines(p: Paper, deposit: Option<string>, revenue: Option<string>): Result<seq<PostingLine>, BuildError> {
    var items := Filter(p.items, PostingItem(true));
    if deposit.None? then Err(NoSettlement)
    else if Abs(Sum(items, ItemAmount()) - p.subtotal) > CENT then Err(SubtotalMismatch)
    else
      var body := CreditLines(items, revenue, p.rate);
      if body.Err? then body
      else
        Ok([LineOn(deposit.value, p.total, true, None, p.rate)] + body.value
           + TaxPart(p, false))
  }

  function VendorCreditLines(p: Paper, payable: Option<string>, expense: Option<string>)
    : Result<seq<PostingLine>, BuildError>
  {
    var items := Filter(p.items, PostingItem(false));
    if payable.None? then Err(NoPayable)
    else if Abs(Sum(items, ItemAmount()) - p.subtotal) > CENT then Err(SubtotalMismatch)
    else
      var body := CreditLines(items, expense, p.rate);
      if body.Err? then body
      else
        Ok(body.value + TaxPart(p, true)
           + [LineOn(payable.value, p.total, true, None, p.rate)])
  }

  method BuildCreditLines(items: seq<Item>, fallback: Option<string>, rate: real)
    returns (lines: Result<seq<PostingLine>, BuildError>)
    ensures lines == CreditLines(items, fallback, rate)
  {
    var built := [];
    for i := 0 to |items|
      invariant CreditLines(items[..i], fallback, rate) == Ok(built)
    {
      assert items[..i + 1][..i] == items[..i];
      var account := if items[i].account.Some? then items[i].account else fallback;
      if account.None? {
        CreditStops(items, fallback, rate, i + 1);
        return Err(ItemWithoutAccount);
      }
      built := built + [LineOn(account.value, Abs(items[i].amount), items[i].amount < 0, items[i].costCenter, rate)];
    }
    assert items[..|items|] == items;
    lines := Ok(built);
  }

  method BuildReceipt(p: Paper, deposit: Option<string>, revenue: Option<string>)
    returns (lines: Result<seq<PostingLine>, BuildError>)
    ensures lines == ReceiptLines(p, deposit, revenue)
  {
    hide CreditLines, Filter;
    if deposit.None? { return Err(NoSettlement); }
    var items := Filter(p.items, PostingItem(true));
    if Abs(Sum(items, ItemAmount()) - p.subtotal) > CENT { return Err(SubtotalMismatch); }
    var body := BuildCreditLines(items, revenue, p.rate);
    if body.Err? { return body; }
    var built := [LineOn(deposit.value, p.total, true, None, p.rate)] + body.value;
    if p.tax > 0 {
      var tax := BuildTaxLines(p.taxLines, false, p.rate);
      built := built + tax;
    } else {
      assert built + [] == built;
    }
    lines := Ok(built);
  }

  method BuildVendorCredit(p: Paper, payable: Option<string>, expense: Option<string>)
    returns (lines: Result<seq<PostingLine>, BuildError>)
    ensures lines == VendorCreditLines(p, payable, expense)
  {
    hide CreditLines, Filter;
    if payable.None? { return Err(NoPayable); }
    var items := Filter(p.items, PostingItem(false));
    if Abs(Sum(items, ItemAmount()) - p.subtotal) > CENT { return Err(SubtotalMismatch); }
    var body := BuildCreditLines(items, expense, p.rate);
    if body.Err? { return body; }
    var built := body.value;
    if p.tax > 0 {
      var tax := BuildTaxLines(p.taxLines, true, p.rate);
      built := built + tax;
    } else {
      assert built + [] == built;
    }
    lines := Ok(built + [LineOn(payable.value, p.total, true, None, p.rate)]);
  }

  lemma {:induction false} CreditStops(items: seq<Item>, fallback: Option<string>, rate: real, i: nat)
    requires i <= |items| && CreditLines(items[..i], fallback, rate).Err?
    ensures CreditLines(items, fallback, rate) == CreditLines(items[..i], fallback, rate)
    decreases |items| - i
  {
    if i < |items| {
      assert items[..i + 1][..i] == items[..i];
      CreditStops(items, fallback, rate, i + 1);
    } else {
      assert items[..i] == items;
    }
  }

  // ---- What the lines move, on any set of accounts ----

  function NetIn(pick: string -> bool): PostingLine -> int {
    (l: PostingLine) => if pick(l.account) then l.debit - l.credit else 0
  }

  function Anywhere(): string -> bool { (account: string) => true }

  /** The line stands on a picked account: its own, or the fallback where it names none. */
  predicate StandsOn(item: Item, fallback: Option<string>, pick: string -> bool) {
    match item.account
    case Some(own) => pick(own)
    case None => fallback.Some? && pick(fallback.value)
  }

  /** What a line adds to the document on the picked accounts: its amount, where that is positive, or less that amount. */
  function Worth(fallback: Option<string>, pick: string -> bool): Item -> int {
    (item: Item) =>
      if item.amount <= 0 || !StandsOn(item, fallback, pick) then 0
      else if item.reduction then -item.amount else item.amount
  }

  /** The posted body: the worth of the lines, or, when none is positive, the subtotal on the fallback in their place. */
  function BodyWorth(p: Paper, fallback: Option<string>, pick: string -> bool): int {
    if exists item :: item in p.items && item.amount > 0 then Sum(p.items, Worth(fallback, pick))
    else if fallback.Some? && p.subtotal > 0 && pick(fallback.value) then p.subtotal
    else 0
  }

  function ControlWorth(p: Paper, control: Option<string>, pick: string -> bool): int {
    if control.Some? && p.total > 0 && pick(control.value) then p.total else 0
  }

  lemma LineOnNet(account: string, amount: int, debit: bool, costCenter: Option<string>, rate: real, pick: string -> bool)
    ensures NetIn(pick)(LineOn(account, amount, debit, costCenter, rate))
         == if !pick(account) then 0 else if debit then amount else -amount
  {
  }

  lemma ItemLineNet(item: Item, fallback: Option<string>, debit: bool, rate: real, pick: string -> bool)
    ensures var worth := Worth(fallback, pick)(item);
      Sum(ItemLine(item, fallback, debit, rate), NetIn(pick)) == if debit then worth else -worth
  {
    hide LineOn, NetIn;
    var account := AccountOf(item, fallback);
    if Positive(item) && account.Some? {
      SumOfOne(LineOn(account.value, item.amount, debit != item.reduction, item.costCenter, rate), NetIn(pick));
      LineOnNet(account.value, item.amount, debit != item.reduction, item.costCenter, rate, pick);
    }
  }

  lemma {:induction false} ItemLinesNet(
      items: seq<Item>, fallback: Option<string>, debit: bool, rate: real, pick: string -> bool)
    ensures var worth := Sum(items, Worth(fallback, pick));
      Sum(ItemLines(items, fallback, debit, rate), NetIn(pick)) == if debit then worth else -worth
  {
    hide ItemLine, NetIn, Worth;
    if items != [] {
      var init, last := items[..|items| - 1], items[|items| - 1];
      ItemLinesNet(init, fallback, debit, rate, pick);
      SumAppend(ItemLines(init, fallback, debit, rate), ItemLine(last, fallback, debit, rate), NetIn(pick));
      ItemLineNet(last, fallback, debit, rate, pick);
    }
  }

  lemma BodyNet(p: Paper, fallback: Option<string>, debit: bool, pick: string -> bool)
    ensures var worth := BodyWorth(p, fallback, pick);
      Sum(BodyLines(p, fallback, debit), NetIn(pick)) == if debit then worth else -worth
  {
    ItemLinesNet(p.items, fallback, debit, p.rate, pick);
    if !AnyPositive(p.items) && fallback.Some? && p.subtotal > 0 {
      SumOfOne(LineOn(fallback.value, p.subtotal, debit, None, p.rate), NetIn(pick));
    }
  }

  lemma ControlNet(p: Paper, control: Option<string>, debit: bool, pick: string -> bool)
    ensures var worth := ControlWorth(p, control, pick);
      Sum(ControlLine(p, control, debit), NetIn(pick)) == if debit then worth else -worth
  {
    if control.Some? && p.total > 0 { SumOfOne(LineOn(control.value, p.total, debit, None, p.rate), NetIn(pick)); }
  }

  function Opposite(pick: string -> bool): PostingLine -> int {
    (l: PostingLine) => if pick(l.account) then l.credit - l.debit else 0
  }

  lemma TaxNet(lines: seq<PostingLine>, swap: bool, rate: real, pick: string -> bool)
    ensures var tax := Sum(lines, NetIn(pick));
      Sum(Map(lines, if swap then SwappedAt(rate) else WithRate(rate)), NetIn(pick)) == if swap then -tax else tax
  {
    if swap {
      SumMap(lines, SwappedAt(rate), NetIn(pick), Opposite(pick));
      SumOpposite(lines, Opposite(pick), NetIn(pick));
    } else {
      SumMap(lines, WithRate(rate), NetIn(pick), NetIn(pick));
    }
  }

  lemma SumOfParts(xs: seq<PostingLine>, ys: seq<PostingLine>, zs: seq<PostingLine>, f: PostingLine -> int)
    ensures Sum(xs + ys + zs, f) == Sum(xs, f) + Sum(ys, f) + Sum(zs, f)
  {
    SumAppend(xs + ys, zs, f);
    SumAppend(xs, ys, f);
  }

  /**
   On any accounts, an invoice debits the receivable by the total and credits each
   line's account by the line, the tax lines coming on top; a credit note the opposite.
   */
  lemma InvoiceMoves(p: Paper, creditNote: bool, receivable: Option<string>, revenue: Option<string>, pick: string -> bool)
    ensures var moved := ControlWorth(p, receivable, pick) - BodyWorth(p, revenue, pick) + Sum(p.taxLines, NetIn(pick));
      Sum(InvoiceLines(p, creditNote, receivable, revenue), NetIn(pick)) == if creditNote then -moved else moved
  {
    hide BodyLines, BodyWorth, ControlLine, ControlWorth;
    SumOfParts(ControlLine(p, receivable, !creditNote), BodyLines(p, revenue, creditNote),
               Map(p.taxLines, if creditNote then SwappedAt(p.rate) else WithRate(p.rate)), NetIn(pick));
    ControlNet(p, receivable, !creditNote, pick);
    BodyNet(p, revenue, creditNote, pick);
    TaxNet(p.taxLines, creditNote, p.rate, pick);
  }

  function TaxWorth(p: Paper, pick: string -> bool): int { if p.tax > 0 then Sum(p.taxLines, NetIn(pick)) else 0 }

  lemma TaxPartNet(p: Paper, swap: bool, pick: string -> bool)
    ensures Sum(TaxPart(p, swap), NetIn(pick)) == if swap then -TaxWorth(p, pick) else TaxWorth(p, pick)
  {
    TaxNet(p.taxLines, swap, p.rate, pick);
  }

  /** A bill or expense debits its lines, reductions taken off, and tax, and credits the total to the paying account. */
  lemma PurchaseMoves(p: Paper, expense: Option<string>, paying: Option<string>, pick: string -> bool)
    ensures Sum(PurchaseLines(p, expense, paying), NetIn(pick))
         == BodyWorth(p, expense, pick) + TaxWorth(p, pick) - ControlWorth(p, paying, pick)
  {
    hide BodyLines, BodyWorth, ControlLine, ControlWorth, TaxPart, TaxWorth;
    SumOfParts(BodyLines(p, expense, true), TaxPart(p, false), ControlLine(p, paying, false), NetIn(pick));
    BodyNet(p, expense, true, pick);
    TaxPartNet(p, false, pick);
    ControlNet(p, paying, false, pick);
  }

  /** A line's signed amount on the picked accounts. */
  function AmountIn(fallback: Option<string>, pick: string -> bool): Item -> int {
    (item: Item) => if StandsOn(item, fallback, pick) then item.amount else 0
  }

  /** A line of a type to post, of an amount beyond a unit either way on a receipt, above zero on a vendor credit. */
  predicate IsPosted(item: Item, receipt: bool) {
    item.posts && (item.amount > (if receipt then 1 else 0) || (receipt && item.amount < -1))
  }

  /** The same of the lines that a receipt or vendor credit posts. */
  function PostedIn(receipt: bool, fallback: Option<string>, pick: string -> bool): Item -> int {
    (item: Item) =>
      if IsPosted(item, receipt) && StandsOn(item, fallback, pick) then item.amount else 0
  }

  /** And wherever they stand. */
  function PostedAmount(receipt: bool): Item -> int {
    (item: Item) => if IsPosted(item, receipt) then item.amount else 0
  }

  lemma PostedSum(items: seq<Item>, receipt: bool, fallback: Option<string>, pick: string -> bool)
    ensures Sum(Filter(items, PostingItem(receipt)), AmountIn(fallback, pick)) == Sum(items, PostedIn(receipt, fallback, pick))
  {
    hide Filter;
    var kept := Filter(items, PostingItem(receipt));
    SumFilter(items, PostingItem(receipt), PostedIn(receipt, fallback, pick));
    SumSame(kept, AmountIn(fallback, pick), PostedIn(receipt, fallback, pick));
  }

  lemma PostedTotal(items: seq<Item>, receipt: bool)
    ensures Sum(Filter(items, PostingItem(receipt)), ItemAmount()) == Sum(items, PostedAmount(receipt))
  {
    hide Filter;
    var kept := Filter(items, PostingItem(receipt));
    SumFilter(items, PostingItem(receipt), PostedAmount(receipt));
    SumSame(kept, ItemAmount(), PostedAmount(receipt));
  }

  lemma {:induction false} CreditLinesNet(items: seq<Item>, fallback: Option<string>, rate: real, pick: string -> bool)
    requires CreditLines(items, fallback, rate).Ok?
    ensures Sum(CreditLines(items, fallback, rate).value, NetIn(pick)) == -Sum(items, AmountIn(fallback, pick))
  {
    hide LineOn, NetIn;
    if items != [] {
      var init, last := items[..|items| - 1], items[|items| - 1];
      CreditLinesNet(init, fallback, rate, pick);
      var account := AccountOf(last, fallback).value;
      SumStep(CreditLines(init, fallback, rate).value,
              LineOn(account, Abs(last.amount), last.amount < 0, last.costCenter, rate), NetIn(pick));
      LineOnNet(account, Abs(last.amount), last.amount < 0, last.costCenter, rate, pick);
    }
  }

  lemma DebitNet(account: string, amount: int, rate: real, pick: string -> bool)
    ensures Sum([LineOn(account, amount, true, None, rate)], NetIn(pick)) == if pick(account) then amount else 0
  {
    SumOfOne(LineOn(account, amount, true, None, rate), NetIn(pick));
  }

  /** A sales receipt debits the deposit by the total and credits sales less discounts, line by line, and tax. */
  lemma ReceiptMoves(p: Paper, deposit: Option<string>, revenue: Option<string>, pick: string -> bool)
    requires ReceiptLines(p, deposit, revenue).Ok?
    ensures Sum(ReceiptLines(p, deposit, revenue).value, NetIn(pick))
         == (if pick(deposit.value) then p.total else 0)
            - Sum(p.items, PostedIn(true, revenue, pick)) + TaxWorth(p, pick)
  {
    hide CreditLines, TaxPart, TaxWorth, Filter;
    var items := Filter(p.items, PostingItem(true));
    PostedSum(p.items, true, revenue, pick);
    SumOfParts([LineOn(deposit.value, p.total, true, None, p.rate)], CreditLines(items, revenue, p.rate).value,
               TaxPart(p, false), NetIn(pick));
    DebitNet(deposit.value, p.total, p.rate, pick);
    CreditLinesNet(items, revenue, p.rate, pick);
    TaxPartNet(p, false, pick);
  }

  /** A vendor credit credits its lines, takes the purchase tax back and debits the payable by the total. */
  lemma VendorCreditMoves(p: Paper, payable: Option<string>, expense: Option<string>, pick: string -> bool)
    requires VendorCreditLines(p, payable, expense).Ok?
    ensures Sum(VendorCreditLines(p, payable, expense).value, NetIn(pick))
         == (if pick(payable.value) then p.total else 0)
            - Sum(p.items, PostedIn(false, expense, pick)) - TaxWorth(p, pick)
  {
    hide CreditLines, TaxPart, TaxWorth, Filter;
    var items := Filter(p.items, PostingItem(false));
    PostedSum(p.items, false, expense, pick);
    SumOfParts(CreditLines(items, expense, p.rate).value, TaxPart(p, true),
               [LineOn(payable.value, p.total, true, None, p.rate)], NetIn(pick));
    DebitNet(payable.value, p.total, p.rate, pick);
    CreditLinesNet(items, expense, p.rate, pick);
    TaxPartNet(p, true, pick);
  }

  // ---- When they balance ----

  lemma NetAnywhere(lines: seq<PostingLine>)
    ensures Sum(lines, NetIn(Anywhere())) == Sum(lines, NetOf())
  {
    SumSame(lines, NetIn(Anywhere()), NetOf());
  }

  /** An invoice is out of balance by its total less its posted lines and tax; a credit note by the opposite. */
  lemma InvoiceImbalance(p: Paper, creditNote: bool, receivable: Option<string>, revenue: Option<string>)
    requires Sum(p.taxLines, NetOf()) == -p.tax && receivable.Some? && p.total > 0
    ensures var imbalance := p.total - BodyWorth(p, revenue, Anywhere()) - p.tax;
      Sum(InvoiceLines(p, creditNote, receivable, revenue), NetOf()) == if creditNote then -imbalance else imbalance
  {
    hide BodyWorth, InvoiceLines;
    InvoiceMoves(p, creditNote, receivable, revenue, Anywhere());
    NetAnywhere(InvoiceLines(p, creditNote, receivable, revenue));
    NetAnywhere(p.taxLines);
  }

  /** A bill or expense is out of balance by its posted lines plus tax less its total. */
  lemma PurchaseImbalance(p: Paper, expense: Option<string>, paying: Option<string>)
    requires p.tax > 0 ==> Sum(p.taxLines, NetOf()) == p.tax
    requires p.tax >= 0 && paying.Some? && p.total > 0
    ensures Sum(PurchaseLines(p, expense, paying), NetOf()) == BodyWorth(p, expense, Anywhere()) + p.tax - p.total
  {
    hide BodyWorth, PurchaseLines;
    PurchaseMoves(p, expense, paying, Anywhere());
    NetAnywhere(PurchaseLines(p, expense, paying));
    NetAnywhere(p.taxLines);
  }

  /** An expense without lines always balances, because its subtotal is taken from the total. */
  lemma ExpenseWithoutLinesBalances(
      p: Paper, expense: Option<string>, settlement: Option<string>, imported: bool, bank: Option<string>)
    requires p.tax > 0 ==> Sum(p.taxLines, NetOf()) == p.tax
    requires 0 <= p.tax <= p.total && p.total > 0 && expense.Some? && forall item :: item in p.items ==> item.amount <= 0
    requires settlement.Some? || (bank.Some? && !imported)
    ensures ExpenseLines(p, expense, settlement, imported, bank).Ok?
    ensures Sum(ExpenseLines(p, expense, settlement, imported, bank).value, NetOf()) == 0
  {
    hide PurchaseLines;
    var subtotal := if p.total - p.tax > 0 then p.total - p.tax else 0;
    PurchaseImbalance(p.(subtotal := subtotal), expense, if settlement.Some? then settlement else bank);
    assert Anywhere()(expense.value);
  }

  lemma {:induction false} CreditLinesPosted(items: seq<Item>, fallback: Option<string>, rate: real)
    requires CreditLines(items, fallback, rate).Ok?
    ensures Sum(items, AmountIn(fallback, Anywhere())) == Sum(items, ItemAmount())
  {
    if items != [] { CreditLinesPosted(items[..|items| - 1], fallback, rate); }
  }

  /** A sales receipt, for any mix of sales and discounts, is out of balance by its total less lines and tax. */
  lemma ReceiptImbalance(p: Paper, deposit: Option<string>, revenue: Option<string>)
    requires p.tax > 0 ==> Sum(p.taxLines, NetOf()) == -p.tax
    requires p.tax >= 0 && ReceiptLines(p, deposit, revenue).Ok?
    ensures Sum(ReceiptLines(p, deposit, revenue).value, NetOf())
         == p.total - Sum(p.items, PostedAmount(true)) - p.tax
  {
    hide CreditLines, Filter;
    PostedSum(p.items, true, revenue, Anywhere());
    PostedTotal(p.items, true);
    ReceiptMoves(p, deposit, revenue, Anywhere());
    NetAnywhere(ReceiptLines(p, deposit, revenue).value);
    NetAnywhere(p.taxLines);
    CreditLinesPosted(Filter(p.items, PostingItem(true)), revenue, p.rate);
  }

  /** A vendor credit swaps its purchase tax lines; it is out of balance in the same way. */
  lemma VendorCreditImbalance(p: Paper, payable: Option<string>, expense: Option<string>)
    requires p.tax > 0 ==> Sum(p.taxLines, NetOf()) == p.tax
    requires p.tax >= 0 && VendorCreditLines(p, payable, expense).Ok?
    ensures Sum(VendorCreditLines(p, payable, expense).value, NetOf())
         == p.total - Sum(p.items, PostedAmount(false)) - p.tax
  {
    hide CreditLines, Filter;
    PostedSum(p.items, false, expense, Anywhere());
    PostedTotal(p.items, false);
    VendorCreditMoves(p, payable, expense, Anywhere());
    NetAnywhere(VendorCreditLines(p, payable, expense).value);
    NetAnywhere(p.taxLines);
    CreditLinesPosted(Filter(p.items, PostingItem(false)), expense, p.rate);
  }

  // ---- When the ledger accepts them ----

  /** The invoice lines as their table stores them: no negative amount, and nothing that reduces. */
  predicate StoredItems(items: seq<Item>) { forall item :: item in items ==> item.amount >= 0 && !item.reduction }

  /** What the lines come to that have neither an account nor a fallback, and so are left out of the entry. */
  function Unplaced(fallback: Option<string>): Item -> int {
    (item: Item) => if item.account.None? && fallback.None? then item.amount else 0
  }

  lemma PostedItems(p: Paper, revenue: Option<string>)
    requires StoredItems(p.items) && exists item :: item in p.items && item.amount > 0
    ensures BodyWorth(p, revenue, Anywhere()) == Sum(p.items, ItemAmount()) - Sum(p.items, Unplaced(revenue))
  {
    forall item | item in p.items ensures ItemAmount()(item) == Worth(revenue, Anywhere())(item) + Unplaced(revenue)(item) {
      if item.account.Some? { assert Anywhere()(item.account.value); }
      if revenue.Some? { assert Anywhere()(revenue.value); }
    }
    SumAdd(p.items, Worth(revenue, Anywhere()), Unplaced(revenue), ItemAmount());
  }

  /**
   The exact condition, for any amounts and any books: posting a sent invoice is
   refused as unbalanced when its total differs from its posted lines and tax by
   more than 0.01, the posted lines being all of them but those without an account.
   */
  lemma InvoiceAcceptedIff(b: Books, p: Paper, receivable: Option<string>, revenue: Option<string>)
    requires |InvoiceLines(p, false, receivable, revenue)| >= 2
    ensures PostInvoice(b, p, false, true, receivable, revenue).1 == Refused(Unbalanced)
      <==> Abs(ControlWorth(p, receivable, Anywhere()) - BodyWorth(p, revenue, Anywhere()) + Sum(p.taxLines, NetOf())) > CENT
    ensures receivable.Some? && p.total >= 0 ==> ControlWorth(p, receivable, Anywhere()) == p.total
    ensures StoredItems(p.items) && (exists item :: item in p.items && item.amount > 0) ==>
      BodyWorth(p, revenue, Anywhere()) == Sum(p.items, ItemAmount()) - Sum(p.items, Unplaced(revenue))
  {
    hide BodyWorth, InvoiceLines, DocumentRows;
    var lines := InvoiceLines(p, false, receivable, revenue);
    InvoiceMoves(p, false, receivable, revenue, Anywhere());
    NetAnywhere(lines);
    NetAnywhere(p.taxLines);
    if receivable.Some? { assert Anywhere()(receivable.value); }
    UnbalancedIff(b, InvoiceDocument(p, false, receivable, revenue, p.date, p.id));
    if StoredItems(p.items) && exists item :: item in p.items && item.amount > 0 { PostedItems(p, revenue); }
  }

  /** On any books, a document is refused as unbalanced exactly when its lines are out by more than 0.01. */
  lemma UnbalancedIff(b: Books, doc: Document)
    ensures PostDocument(b, doc).1 == Refused(Unbalanced) <==> Abs(Sum(doc.lines, NetOf())) > CENT
  {
    hide DocumentRows, HasOrigin;
    PlainNet(doc.lines);
    SumAdd(Plain(doc.lines), LineNet(), LineCredit(), LineDebit());
  }

  /** A company without a revenue account, and an invoice of two equal lines, one of them on no account. */
  function HalfPlaced(amount: int): Paper {
    Paper("invoice", 0, "SAR", 1.0, 2 * amount, 0, 2 * amount,
          [Item(Some("sales"), amount, false, true, None), Item(None, amount, false, true, None)], [])
  }

  /** The failing input: the invoice is refused as unbalanced whatever the books. */
  lemma UnplacedLineIsRefused(b: Books, amount: int)
    requires amount > CENT
    ensures StoredItems(HalfPlaced(amount).items) && HalfPlaced(amount).total == Sum(HalfPlaced(amount).items, ItemAmount())
    ensures PostInvoice(b, HalfPlaced(amount), false, true, Some("receivable"), None).1 == Refused(Unbalanced)
  {
    hide PostInvoice;
    var p := HalfPlaced(amount);
    var placed, unplaced := p.items[0], p.items[1];
    assert p.items == [placed, unplaced] && Positive(placed) && placed in p.items;
    SumOfTwo(placed, unplaced, ItemAmount());
    SumOfTwo(placed, unplaced, Unplaced(None));
    assert p.items[..1] == [placed] && p.items[..1][..0] == [];
    assert ItemLines(p.items[..1], None, false, 1.0) == [LineOn("sales", amount, false, None, 1.0)];
    assert InvoiceLines(p, false, Some("receivable"), None)[1] == LineOn("sales", amount, false, None, 1.0);
    InvoiceAcceptedIff(b, p, Some("receivable"), None);
  }

  /** And with no line on an account and no tax, a sent invoice is passed over without an error and never reaches the ledger. */
  lemma UnplacedInvoiceIsSkipped(b: Books, p: Paper, receivable: Option<string>)
    requires p.taxLines == [] && forall item :: item in p.items ==> item.account.None?
    ensures PostInvoice(b, p, false, true, receivable, None) == (b, Done(|b.rows|))
  {
    NoLines(p.items, p.rate);
  }

  lemma {:induction false} NoLines(items: seq<Item>, rate: real)
    requires forall item :: item in items ==> item.account.None?
    ensures ItemLines(items, None, false, rate) == []
  {
    if items != [] { NoLines(items[..|items| - 1], rate); }
  }

  // ---- A credit note mirrors its invoice ----

  lemma {:induction false} ItemsOneSided(items: seq<Item>, fallback: Option<string>, debit: bool, rate: real)
    ensures forall l :: l in ItemLines(items, fallback, debit, rate) ==> OneSided(l.debit, l.credit)
  {
    if items != [] { ItemsOneSided(items[..|items| - 1], fallback, debit, rate); }
  }

  lemma BodyOneSided(p: Paper, fallback: Option<string>, debit: bool)
    ensures forall l :: l in BodyLines(p, fallback, debit) ==> OneSided(l.debit, l.credit)
  {
    ItemsOneSided(p.items, fallback, debit, p.rate);
  }

  lemma MapAppend<T, U>(xs: seq<T>, ys: seq<T>, f: T -> U)
    ensures Map(xs + ys, f) == Map(xs, f) + Map(ys, f)
  {
    assert forall i :: 0 <= i < |xs + ys| ==> Map(xs + ys, f)[i] == (Map(xs, f) + Map(ys, f))[i];
  }

  lemma ItemMirrors(item: Item, fallback: Option<string>, rate: real)
    ensures ItemLine(item, fallback, true, rate) == Mirror(ItemLine(item, fallback, false, rate))
  {
  }

  lemma {:induction false} ItemsMirror(items: seq<Item>, fallback: Option<string>, rate: real)
    ensures ItemLines(items, fallback, true, rate) == Mirror(ItemLines(items, fallback, false, rate))
  {
    hide ItemLine;
    if items != [] {
      var init, last := items[..|items| - 1], items[|items| - 1];
      ItemsMirror(init, fallback, rate);
      ItemMirrors(last, fallback, rate);
      MapAppend(ItemLines(init, fallback, false, rate), ItemLine(last, fallback, false, rate), Swap());
    }
  }

  lemma BodyMirror(p: Paper, fallback: Option<string>)
    ensures BodyLines(p, fallback, true) == Mirror(BodyLines(p, fallback, false))
  {
    ItemsMirror(p.items, fallback, p.rate);
  }

  lemma TaxMirror(lines: seq<PostingLine>, rate: real)
    ensures Map(lines, SwappedAt(rate)) == Mirror(Map(lines, WithRate(rate)))
  {
    assert forall i :: 0 <= i < |lines| ==> Map(lines, SwappedAt(rate))[i] == Mirror(Map(lines, WithRate(rate)))[i];
  }

  lemma ControlMirror(p: Paper, control: Option<string>)
    ensures ControlLine(p, control, false) == Mirror(ControlLine(p, control, true))
  {
  }

  lemma CreditNoteMirrors(p: Paper, receivable: Option<string>, revenue: Option<string>)
    ensures InvoiceLines(p, true, receivable, revenue) == Mirror(InvoiceLines(p, false, receivable, revenue))
  {
    hide BodyLines, ControlLine, SwappedAt, WithRate, Map;
    BodyMirror(p, revenue);
    TaxMirror(p.taxLines, p.rate);
    ControlMirror(p, receivable);
    var head, body := ControlLine(p, receivable, true), BodyLines(p, revenue, false);
    MapAppend(head + body, Map(p.taxLines, WithRate(p.rate)), Swap());
    MapAppend(head, body, Swap());
  }

  function InvoiceDocument(p: Paper, creditNote: bool, receivable: Option<string>, revenue: Option<string>, date: int, id: string)
    : Document
  {
    Document("INVOICE", id, date, p.currency, p.rate, InvoiceLines(p, creditNote, receivable, revenue))
  }

  /**
   A credit note with the amounts of an invoice undoes it: posting both leaves
   every account unmoved, in the transaction and in the base currency.
   */
  lemma CreditNoteCancels(
      p: Paper, receivable: Option<string>, revenue: Option<string>, date: int, id: string, account: string, w: Window)
    requires forall l :: l in p.taxLines ==> !(l.debit > 0 && l.credit > 0)
    requires Within(w, p.date) && Within(w, date)
    ensures var rows := DocumentRows(InvoiceDocument(p, false, receivable, revenue, p.date, p.id))
                      + DocumentRows(InvoiceDocument(p, true, receivable, revenue, date, id));
      Movement(rows, account, w) == 0 && Sum(rows, RowBaseNetOn(account)) == 0
  {
    hide BodyLines, DocumentRows;
    CreditNoteMirrors(p, receivable, revenue);
    BodyOneSided(p, revenue, false);
    MirroredDocumentsCancel(InvoiceDocument(p, false, receivable, revenue, p.date, p.id),
                            InvoiceDocument(p, true, receivable, revenue, date, id), account, w);
  }

  /** Only a sent document with at least two lines is posted. */
  function PostInvoice(b: Books, p: Paper, creditNote: bool, sent: bool, receivable: Option<string>, revenue: Option<string>)
    : (Books, Outcome)
  {
    if !sent || |InvoiceLines(p, creditNote, receivable, revenue)| < 2 then (b, Done(|b.rows|))
    else PostDocument(b, InvoiceDocument(p, creditNote, receivable, revenue, p.date, p.id))
  }

  /** On the books: an invoice and then its credit note leave every balance as it was. */
  lemma InvoiceThenCreditNote(
      b: Books, p: Paper, note: Paper, sent: bool, receivable: Option<string>, revenue: Option<string>, account: string, w: Window)
    requires note == p.(id := note.id, date := note.date)
    requires forall l :: l in p.taxLines ==> !(l.debit > 0 && l.credit > 0)
    requires Within(w, p.date) && Within(w, note.date)
    requires PostInvoice(b, p, false, sent, receivable, revenue).1.Done?
    requires PostInvoice(PostInvoice(b, p, false, sent, receivable, revenue).0, note, true, sent, receivable, revenue).1.Done?
    ensures var invoiced := PostInvoice(b, p, false, sent, receivable, revenue).0;
      var credited := PostInvoice(invoiced, note, true, sent, receivable, revenue).0;
      && Movement(credited.rows, account, w) == Movement(b.rows, account, w)
      && Sum(credited.rows, RowBaseNetOn(account)) == Sum(b.rows, RowBaseNetOn(account))
  {
    hide InvoiceLines, DocumentRows, Mirror;
    var invoiced := PostInvoice(b, p, false, sent, receivable, revenue).0;
    var credited := PostInvoice(invoiced, note, true, sent, receivable, revenue).0;
    var invoice, creditNote := InvoiceDocument(p, false, receivable, revenue, p.date, p.id),
                               InvoiceDocument(p, true, receivable, revenue, note.date, note.id);
    SameLines(p, note, receivable, revenue);
    if |InvoiceLines(p, false, receivable, revenue)| >= 2 && sent {
      FirstPostingAppends(b, invoice);
      FirstPostingAppends(invoiced, creditNote);
      var both := DocumentRows(invoice) + DocumentRows(creditNote);
      assert credited.rows == b.rows + both;
      CreditNoteCancels(p, receivable, revenue, note.date, note.id, account, w);
      MovementAppend(b.rows, both, account, w);
      SumAppend(b.rows, both, RowBaseNetOn(account));
    }
  }

  lemma SameLines(p: Paper, note: Paper, receivable: Option<string>, revenue: Option<string>)
    requires note == p.(id := note.id, date := note.date)
    ensures InvoiceLines(note, true, receivable, revenue) == InvoiceLines(p, true, receivable, revenue)
    ensures |InvoiceLines(p, true, receivable, revenue)| == |InvoiceLines(p, false, receivable, revenue)|
  {
    CreditNoteMirrors(p, receivable, revenue);
  }
}
