/** Payments and the realized exchange differences of the documents they settle. */
module Payments {
  import opened Wrappers
  import opened Sums
  import opened Money
  import opened Accounts
  import opened Ledger
  import opened Posting
  import opened Books

  datatype Target = Invoice(id: string) | Bill(id: string) | NoTarget

  datatype Allocation = Allocation(target: Target, cash: int)

  /** `currency` and `rate` are those of the payment; the settlement account comes from one of three places. */
  datatype Payment = Payment(
    id: string, date: int, amount: int, currency: string, rate: real,
    ofCustomer: bool, ofVendor: bool,
    deposit: Option<string>, linkedBank: Option<string>, imported: bool,
    allocations: seq<Allocation>)

  /** Accounts and rates that are looked up: the rates by document, and none when the document has none. */
  datatype Setup = Setup(
    base: string, receivable: Option<string>, payable: Option<string>, bank: Option<string>,
    gain: Option<string>, loss: Option<string>, documentRates: map<string, real>)

  datatype PaymentError = NotOneSubledger | NoSettlementAccount | NoControlAccount | NoGainAccount | NoLossAccount

  datatype PaymentEntry = PaymentEntry(settlement: string, control: string, lines: seq<PostingLine>, realized: seq<PostingLine>)

  predicate IsCustomer(p: Payment) { p.ofCustomer || exists a :: a in p.allocations && a.target.Invoice? }
  predicate IsVendor(p: Payment) { p.ofVendor || exists a :: a in p.allocations && a.target.Bill? }

  function SettlementAccount(p: Payment, bank: Option<string>): Option<string> {
    if p.deposit.Some? then p.deposit
    else if p.linkedBank.Some? then p.linkedBank
    else if p.imported then None
    else bank
  }

  function DocumentRate(a: Allocation, rates: map<string, real>): real {
    if a.target.NoTarget? || a.target.id !in rates then 0.0 else rates[a.target.id]
  }

  function RealizedDifference(amount: int, originalRate: real, settlementRate: real): int {
    Convert(amount, settlementRate) - Convert(amount, originalRate)
  }

  function Difference(a: Allocation, rates: map<string, real>, rate: real): int {
    RealizedDifference(a.cash, DocumentRate(a, rates), rate)
  }

  /** An allocation whose difference is worth booking. */
  predicate Booked(a: Allocation, rates: map<string, real>, rate: real) {
    a.cash > 0 && DocumentRate(a, rates) > 0.0 && Abs(Difference(a, rates, rate)) > CENT
  }

  function DebitLine(account: string, amount: int, rate: Option<real>): PostingLine {
    PostingLine(account, amount, 0, None, rate)
  }
  function CreditLine(account: string, amount: int, rate: Option<real>): PostingLine {
    PostingLine(account, 0, amount, None, rate)
  }

  /** The pair of lines that books one difference, for each kind of payment and sign. */
  function DifferencePair(customer: bool, control: string, gain: Option<string>, loss: Option<string>, diff: int)
    : Result<seq<PostingLine>, PaymentError>
  {
    if customer == (diff > 0) then
      if gain.None? then Err(NoGainAccount)
      else Ok([DebitLine(control, Abs(diff), None), CreditLine(gain.value, Abs(diff), None)])
    else
      if loss.None? then Err(NoLossAccount)
      else Ok([DebitLine(loss.value, Abs(diff), None), CreditLine(control, Abs(diff), None)])
  }

  /** The lines of the first allocations; the first missing account stops it. */
  function RealizedLines(customer: bool, control: string, s: Setup, rate: real, allocations: seq<Allocation>)
    : Result<seq<PostingLine>, PaymentError>
  {
    if allocations == [] then Ok([])
    else
      var last := allocations[|allocations| - 1];
      var before := RealizedLines(customer, control, s, rate, allocations[..|allocations| - 1]);
      if before.Err? || !Booked(last, s.documentRates, rate) then before
      else
        var pair := DifferencePair(customer, control, s.gain, s.loss, Difference(last, s.documentRates, rate));
        if pair.Err? then pair else Ok(before.value + pair.value)
  }

  function PaymentLines(customer: bool, settlement: string, control: string, p: Payment): seq<PostingLine> {
    if customer then [DebitLine(settlement, p.amount, Some(p.rate)), CreditLine(control, p.amount, Some(p.rate))]
    else [CreditLine(settlement, p.amount, Some(p.rate)), DebitLine(control, p.amount, Some(p.rate))]
  }

  function EntryOf(p: Payment, s: Setup): Result<PaymentEntry, PaymentError> {
    var customer := IsCustomer(p);
    var settlement := SettlementAccount(p, s.bank);
    var control := if customer then s.receivable else s.payable;
    if customer == IsVendor(p) then Err(NotOneSubledger)
    else if settlement.None? then Err(NoSettlementAccount)
    else if control.None? then Err(NoControlAccount)
    else
      var realized :=
        if p.currency == s.base then Ok([])
        else RealizedLines(customer, control.value, s, p.rate, p.allocations);
      match realized
      case Err(e) => Err(e)
      case Ok(lines) =>
        Ok(PaymentEntry(settlement.value, control.value, PaymentLines(customer, settlement.value, control.value, p), lines))
  }

  /** Collects the realized lines allocation by allocation, as the posting function does. */
  method BuildEntry(p: Payment, s: Setup) returns (entry: Result<PaymentEntry, PaymentError>)
    ensures entry == EntryOf(p, s)
  {
    var customer, vendor := p.ofCustomer, p.ofVendor;
    for i := 0 to |p.allocations|
      invariant customer <==> p.ofCustomer || exists a :: a in p.allocations[..i] && a.target.Invoice?
      invariant vendor <==> p.ofVendor || exists a :: a in p.allocations[..i] && a.target.Bill?
    {
      assert p.allocations[..i + 1] == p.allocations[..i] + [p.allocations[i]];
      customer := customer || p.allocations[i].target.Invoice?;
      vendor := vendor || p.allocations[i].target.Bill?;
    }
    assert p.allocations[..|p.allocations|] == p.allocations;
    if customer == vendor { return Err(NotOneSubledger); }
    var settlement := SettlementAccount(p, s.bank);
    if settlement.None? { return Err(NoSettlementAccount); }
    var control := if customer then s.receivable else s.payable;
    if control.None? { return Err(NoControlAccount); }
    var realized := [];
    if p.currency != s.base {
      for i := 0 to |p.allocations|
        invariant RealizedLines(customer, control.value, s, p.rate, p.allocations[..i]) == Ok(realized)
      {
        RealizedStep(customer, control.value, s, p.rate, p.allocations, i);
        var a := p.allocations[i];
        if a.cash <= 0 || DocumentRate(a, s.documentRates) <= 0.0 { continue; }
        var diff := Convert(a.cash, p.rate) - Convert(a.cash, DocumentRate(a, s.documentRates));
        if Abs(diff) <= CENT { continue; }
        var pair := DifferencePair(customer, control.value, s.gain, s.loss, diff);
        if pair.Err? {
          RealizedStops(customer, control.value, s, p.rate, p.allocations, i + 1);
          return Err(pair.error);
        }
        realized := realized + pair.value;
      }
      assert p.allocations[..|p.allocations|] == p.allocations;
    }
    entry := Ok(PaymentEntry(settlement.value, control.value, PaymentLines(customer, settlement.value, control.value, p), realized));
  }

  lemma RealizedStep(customer: bool, control: string, s: Setup, rate: real, allocations: seq<Allocation>, i: nat)
    requires i < |allocations|
    ensures RealizedLines(customer, control, s, rate, allocations[..i + 1]) ==
      var before := RealizedLines(customer, control, s, rate, allocations[..i]);
      var a := allocations[i];
      if before.Err? || !Booked(a, s.documentRates, rate) then before
      else
        var pair := DifferencePair(customer, control, s.gain, s.loss, Difference(a, s.documentRates, rate));
        if pair.Err? then pair else Ok(before.value + pair.value)
  {
    assert allocations[..i + 1][..i] == allocations[..i];
  }

  lemma {:induction false} RealizedStops(
      customer: bool, control: string, s: Setup, rate: real, allocations: seq<Allocation>, i: nat)
    requires i <= |allocations|
    requires RealizedLines(customer, control, s, rate, allocations[..i]).Err?
    ensures RealizedLines(customer, control, s, rate, allocations)
         == RealizedLines(customer, control, s, rate, allocations[..i])
    decreases |allocations| - i
  {
    if i < |allocations| {
      RealizedStep(customer, control, s, rate, allocations, i);
      RealizedStops(customer, control, s, rate, allocations, i + 1);
    } else {
      assert allocations[..i] == allocations;
    }
  }

  // ---- What the realized lines do ----

  function BookedDifference(rates: map<string, real>, rate: real): Allocation -> int {
    (a: Allocation) => if Booked(a, rates, rate) then Difference(a, rates, rate) else 0
  }

  predicate AtBase(l: PostingLine) { NonNegative(l) && l.rate.None? }

  lemma PairSums(customer: bool, control: string, s: Setup, diff: int, f: PostingLine -> int)
    requires DifferencePair(customer, control, s.gain, s.loss, diff).Ok?
    ensures var pair := DifferencePair(customer, control, s.gain, s.loss, diff).value;
      |pair| == 2 && Sum(pair, f) == f(pair[0]) + f(pair[1])
  {
    var pair := DifferencePair(customer, control, s.gain, s.loss, diff).value;
    SumOfTwo(pair[0], pair[1], f);
    assert pair == [pair[0], pair[1]];
  }

  /** A booked difference is a gain when it favours the company: more received, or less paid, than was carried. */
  function GainPart(customer: bool, rates: map<string, real>, rate: real): Allocation -> int {
    (a: Allocation) =>
      if Booked(a, rates, rate) && customer == (Difference(a, rates, rate) > 0) then Abs(Difference(a, rates, rate)) else 0
  }
  function LossPart(customer: bool, rates: map<string, real>, rate: real): Allocation -> int {
    (a: Allocation) =>
      if Booked(a, rates, rate) && customer != (Difference(a, rates, rate) > 0) then Abs(Difference(a, rates, rate)) else 0
  }

  function Gains(customer: bool, s: Setup, rate: real, allocations: seq<Allocation>): int {
    Sum(allocations, GainPart(customer, s.documentRates, rate))
  }
  function Losses(customer: bool, s: Setup, rate: real, allocations: seq<Allocation>): int {
    Sum(allocations, LossPart(customer, s.documentRates, rate))
  }

  /** What the realized lines put on an account as gain or loss account. */
  function GainLossNet(customer: bool, s: Setup, rate: real, allocations: seq<Allocation>, account: string): int {
    OnIf(s.loss == Some(account), Losses(customer, s, rate, allocations))
    - OnIf(s.gain == Some(account), Gains(customer, s, rate, allocations))
  }

  /**
   Realized lines balance exactly. Any account is moved by the booked differences if
   it is the control account, credited with the gains if it is the gain account and
   debited with the losses if it is the loss account: by all of these if it is several.
   */
  lemma {:induction false} RealizedMoves(
      customer: bool, control: string, s: Setup, rate: real, allocations: seq<Allocation>, account: string)
    requires RealizedLines(customer, control, s, rate, allocations).Ok?
    ensures var lines := RealizedLines(customer, control, s, rate, allocations).value;
      && (forall l :: l in lines ==> AtBase(l))
      && Sum(lines, NetOf()) == 0
      && var booked := Sum(allocations, BookedDifference(s.documentRates, rate));
         Sum(lines, NetOn(account)) == OnIf(account == control, if customer then booked else -booked)
                                       + GainLossNet(customer, s, rate, allocations, account)
  {
    hide Booked, Difference, DifferencePair;
    if allocations != [] {
      var init, last := allocations[..|allocations| - 1], allocations[|allocations| - 1];
      RealizedMoves(customer, control, s, rate, init, account);
      if Booked(last, s.documentRates, rate) {
        BookedIsNotZero(last, s.documentRates, rate);
        var diff := Difference(last, s.documentRates, rate);
        PairMoves(customer, control, s, diff, account);
        var before := RealizedLines(customer, control, s, rate, init).value;
        var pair := DifferencePair(customer, control, s.gain, s.loss, diff).value;
        SumAppend(before, pair, NetOf());
        SumAppend(before, pair, NetOn(account));
      }
    }
  }

  lemma BookedIsNotZero(a: Allocation, rates: map<string, real>, rate: real)
    requires Booked(a, rates, rate)
    ensures Difference(a, rates, rate) != 0
  {
  }

  lemma PairMoves(customer: bool, control: string, s: Setup, diff: int, account: string)
    requires DifferencePair(customer, control, s.gain, s.loss, diff).Ok? && diff != 0
    ensures var pair := DifferencePair(customer, control, s.gain, s.loss, diff).value;
      var gain := customer == (diff > 0);
      && (forall l :: l in pair ==> AtBase(l))
      && Sum(pair, NetOf()) == 0
      && Sum(pair, NetOn(account)) == OnIf(account == control, if customer then diff else -diff)
           + OnIf(s.loss == Some(account), if gain then 0 else Abs(diff))
           - OnIf(s.gain == Some(account), if gain then Abs(diff) else 0)
  {
    PairSums(customer, control, s, diff, NetOf());
    PairSums(customer, control, s, diff, NetOn(account));
  }

  // ---- The base value of what a payment relieves ----

  /** The value the documents carry; a document without a rate is carried at the payment's. */
  function Carried(rates: map<string, real>, rate: real): Allocation -> int {
    (a: Allocation) => Convert(a.cash, if DocumentRate(a, rates) > 0.0 then DocumentRate(a, rates) else rate)
  }
  function Cash(): Allocation -> int { (a: Allocation) => a.cash }
  function AtOwnRate(rate: real): Allocation -> int { (a: Allocation) => Convert(a.cash, rate) }
  function AtOwnRateExact(rate: real): Allocation -> real { (a: Allocation) => a.cash as real * rate }

  /** What an allocation's unbooked difference leaves on the control account. */
  function Leftover(rates: map<string, real>, rate: real): Allocation -> int {
    (a: Allocation) => AtOwnRate(rate)(a) - BookedDifference(rates, rate)(a) - Carried(rates, rate)(a)
  }
  function Skipped(rates: map<string, real>, rate: real): Allocation -> int {
    (a: Allocation) => if Booked(a, rates, rate) then 0 else 1
  }
  function SkippedCents(rates: map<string, real>, rate: real): Allocation -> int {
    (a: Allocation) => if Booked(a, rates, rate) then 0 else 100
  }

  lemma LeftoverBound(a: Allocation, rates: map<string, real>, rate: real)
    requires a.cash >= 0
    ensures Booked(a, rates, rate) ==> Leftover(rates, rate)(a) == 0
    ensures Abs(Leftover(rates, rate)(a)) <= SkippedCents(rates, rate)(a)
  {
    hide Convert, DocumentRate;
    assert Leftover(rates, rate)(a)
        == AtOwnRate(rate)(a) - BookedDifference(rates, rate)(a) - Carried(rates, rate)(a);
    if a.cash == 0 {
      ConvertZero(rate);
      ConvertZero(DocumentRate(a, rates));
    } else if DocumentRate(a, rates) > 0.0 {
      assert AtOwnRate(rate)(a) - Carried(rates, rate)(a) == Difference(a, rates, rate);
    }
  }

  lemma {:induction false} LeftoversBound(allocations: seq<Allocation>, rates: map<string, real>, rate: real)
    requires forall a :: a in allocations ==> a.cash >= 0
    ensures Abs(Sum(allocations, Leftover(rates, rate))) <= 100 * Sum(allocations, Skipped(rates, rate))
  {
    hide Leftover, Booked;
    if allocations != [] {
      LeftoversBound(allocations[..|allocations| - 1], rates, rate);
      LeftoverBound(allocations[|allocations| - 1], rates, rate);
    }
  }

  lemma RoundedTogether(allocations: seq<Allocation>, rate: real)
    ensures NearBy(Sum(allocations, AtOwnRate(rate)), Exact(Sum(allocations, Cash()), rate), |allocations|)
  {
    hide Exact;
    RoundedSum(allocations, AtOwnRate(rate), AtOwnRateExact(rate));
    ScaledSum(allocations, Cash(), AtOwnRateExact(rate), rate);
  }

  function LessBooked(rates: map<string, real>, rate: real): Allocation -> int {
    (a: Allocation) => AtOwnRate(rate)(a) - BookedDifference(rates, rate)(a)
  }

  /** Base value relieved: the payment at its own rate, less the differences booked. */
  function Relieved(p: Payment, s: Setup): int {
    Convert(p.amount, p.rate) - Sum(p.allocations, BookedDifference(s.documentRates, p.rate))
  }

  lemma LeftoverSums(allocations: seq<Allocation>, rates: map<string, real>, rate: real)
    ensures Sum(allocations, Leftover(rates, rate))
         == Sum(allocations, AtOwnRate(rate)) - Sum(allocations, BookedDifference(rates, rate))
            - Sum(allocations, Carried(rates, rate))
  {
    hide Booked, Difference, DocumentRate;
    SumAdd(allocations, LessBooked(rates, rate), BookedDifference(rates, rate), AtOwnRate(rate));
    SumAdd(allocations, Leftover(rates, rate), Carried(rates, rate), LessBooked(rates, rate));
  }

  /**
   A fully allocated payment relieves what its documents carried, to within one
   hundredth per unbooked difference and half a unit for each of n + 1 roundings.
   */
  lemma RelievesCarriedValue(p: Payment, s: Setup)
    requires forall a :: a in p.allocations ==> a.cash >= 0
    requires p.amount == Sum(p.allocations, Cash())
    ensures var carried := Sum(p.allocations, Carried(s.documentRates, p.rate));
      var skipped := Sum(p.allocations, Skipped(s.documentRates, p.rate));
      2 * Abs(Relieved(p, s) - carried) <= 200 * skipped + |p.allocations| + 1
  {
    hide Carried, Skipped, AtOwnRate, BookedDifference, Leftover, Exact;
    LeftoversBound(p.allocations, s.documentRates, p.rate);
    LeftoverSums(p.allocations, s.documentRates, p.rate);
    RoundedTogether(p.allocations, p.rate);
    ConvertIsNear(p.amount, p.rate);
  }

  lemma ConvertIsNear(amount: int, rate: real)
    ensures NearBy(Convert(amount, rate), Exact(amount, rate), 1)
  {
  }

  /** One booked allocation of the whole payment is relieved of exactly what it carried. */
  lemma OneAllocationIsExact(p: Payment, s: Setup)
    requires |p.allocations| == 1 && p.amount == p.allocations[0].cash
    requires Booked(p.allocations[0], s.documentRates, p.rate)
    ensures Relieved(p, s) == Convert(p.amount, DocumentRate(p.allocations[0], s.documentRates))
  {
    SumOfOne(p.allocations[0], BookedDifference(s.documentRates, p.rate));
    assert p.allocations == [p.allocations[0]];
  }

  // ---- Posting the entry ----

  function PaymentDocument(p: Payment, lines: seq<PostingLine>): Document {
    Document("PAYMENT", p.id, p.date, p.currency, p.rate, lines)
  }

  /** The realized entry is in the base currency, whose rate to itself is one. */
  function RealizedDocument(p: Payment, s: Setup, lines: seq<PostingLine>): Document {
    Document("REALIZED_FX", p.id, p.date, s.base, 1.0, lines)
  }

  datatype PaymentOutcome = Failed(error: PaymentError) | Stopped(why: Refusal) | Complete

  function PostPayment(b: Books, p: Payment, s: Setup): (Books, PaymentOutcome) {
    match EntryOf(p, s)
    case Err(e) => (b, Failed(e))
    case Ok(entry) =>
      var (paid, first) := PostDocument(b, PaymentDocument(p, entry.lines));
      if first.Refused? then (paid, Stopped(first.why))
      else if |entry.realized| < 2 then (paid, Complete)
      else
        var (booked, second) := PostDocument(paid, RealizedDocument(p, s, entry.realized));
        if second.Refused? then (booked, Stopped(second.why)) else (booked, Complete)
  }

  function BaseOn(rows: seq<Row>, account: string): int { Sum(rows, RowBaseNetOn(account)) }

  /** What the two payment lines put on an account: the base amount on settlement, its opposite on control, and nothing on both at once. */
  function PaymentNet(customer: bool, settlement: string, control: string, base: int, account: string): int {
    OnIf(account == settlement, if customer then base else -base) + OnIf(account == control, if customer then -base else base)
  }

  /** In base currency a receipt moves the amount at its rate from the control account to settlement; a payment back. */
  lemma PaymentBase(customer: bool, settlement: string, control: string, p: Payment, account: string)
    requires p.amount > 0 && p.rate > 0.0
    ensures BaseOn(DocumentRows(PaymentDocument(p, PaymentLines(customer, settlement, control, p))), account)
      == PaymentNet(customer, settlement, control, Convert(p.amount, p.rate), account)
  {
    hide Group, Convert, DocumentRows;
    var lines := PaymentLines(customer, settlement, control, p);
    var f := BaseNetOn(account, p.rate);
    GroupOfTwo(lines);
    DocumentBaseMovement(PaymentDocument(p, lines), account);
    SumOfTwo(lines[0], lines[1], f);
    assert lines == [lines[0], lines[1]];
    PaymentLineBase(settlement, account, p, customer);
    PaymentLineBase(control, account, p, !customer);
  }

  lemma PaymentLineBase(own: string, account: string, p: Payment, debit: bool)
    requires p.rate > 0.0
    ensures var l := if debit then DebitLine(own, p.amount, Some(p.rate)) else CreditLine(own, p.amount, Some(p.rate));
      BaseNetOn(account, p.rate)(l)
      == if own != account then 0 else if debit then Convert(p.amount, p.rate) else -Convert(p.amount, p.rate)
  {
    hide Convert;
    ConvertZero(p.rate);
  }

  predicate Unposted(b: Books, id: string) {
    !HasOrigin(b.rows, FromDocument("PAYMENT", id)) && !HasOrigin(b.rows, FromDocument("REALIZED_FX", id))
  }

  lemma PaymentIsPositive(customer: bool, settlement: string, control: string, p: Payment)
    ensures Sum(Plain(PaymentLines(customer, settlement, control, p)), LineDebit()) == p.amount
  {
    hide Plain, Map;
    var lines := PaymentLines(customer, settlement, control, p);
    PlainDebit(lines);
    assert lines == [lines[0], lines[1]];
    SumOfTwo(lines[0], lines[1], DebitOf());
  }

  lemma {:induction false} RealizedEmptyIff(
      customer: bool, control: string, s: Setup, rate: real, allocations: seq<Allocation>)
    requires RealizedLines(customer, control, s, rate, allocations).Ok?
    ensures |RealizedLines(customer, control, s, rate, allocations).value| != 1
  {
    if allocations != [] {
      RealizedEmptyIff(customer, control, s, rate, allocations[..|allocations| - 1]);
    }
  }

  /** What a complete foreign payment puts on an account besides the relieved value: as settlement, gain or loss account. */
  function BesidesRelief(p: Payment, s: Setup, settlement: string, account: string): int {
    var customer, base := IsCustomer(p), Convert(p.amount, p.rate);
    OnIf(account == settlement, if customer then base else -base) + GainLossNet(customer, s, p.rate, p.allocations, account)
  }

  /**
   A complete foreign payment relieves its control account, a receivable down and a
   payable up, and moves every account, the control account too, by what it gets as
   settlement, gain or loss account.
   */
  lemma ControlIsRelieved(b: Books, p: Payment, s: Setup, account: string)
    requires PostPayment(b, p, s).1.Complete? && Unposted(b, p.id)
    requires p.currency != s.base && p.rate > 0.0
    ensures var e := EntryOf(p, s).value;
      BaseOn(PostPayment(b, p, s).0.rows, account) - BaseOn(b.rows, account)
        == OnIf(account == e.control, if IsCustomer(p) then -Relieved(p, s) else Relieved(p, s))
           + BesidesRelief(p, s, e.settlement, account)
  {
    hide PostDocument, EntryOf, HasOrigin, BookedDifference, IsCustomer, GainLossNet, Convert, BaseOn, Sum;
    CompleteHasEntry(b, p, s);
    var e := EntryOf(p, s).value;
    var doc := PaymentDocument(p, e.lines);
    PaidMoves(b, p, s, e, account);
    EntryRealized(p, s, e, account);
    if |e.realized| >= 2 { RealizedDocumentMoves(PostDocument(b, doc).0, p, s, e, account); }
  }

  /** The payment's own entry moves settlement and control. */
  lemma PaidMoves(b: Books, p: Payment, s: Setup, e: PaymentEntry, account: string)
    requires EntryOf(p, s) == Ok(e) && p.rate > 0.0 && Unposted(b, p.id)
    requires !PostDocument(b, PaymentDocument(p, e.lines)).1.Refused?
    ensures var paid := PostDocument(b, PaymentDocument(p, e.lines)).0;
      && BaseOn(paid.rows, account) - BaseOn(b.rows, account)
         == PaymentNet(IsCustomer(p), e.settlement, e.control, Convert(p.amount, p.rate), account)
      && !HasOrigin(paid.rows, FromDocument("REALIZED_FX", p.id))
  {
    hide PostDocument, DocumentRows, PaymentLines, RealizedLines, HasOrigin, IsCustomer, IsVendor, Convert, PaymentNet;
    var doc := PaymentDocument(p, e.lines);
    FirstPostingAppends(b, doc);
    PaymentIsPositive(IsCustomer(p), e.settlement, e.control, p);
    PaymentBase(IsCustomer(p), e.settlement, e.control, p, account);
    SumAppend(b.rows, DocumentRows(doc), RowBaseNetOn(account));
    StillUnposted(b, doc, RealizedDocument(p, s, e.realized));
  }

  /** The realized lines of a foreign payment, and what they move. */
  lemma EntryRealized(p: Payment, s: Setup, e: PaymentEntry, account: string)
    requires EntryOf(p, s) == Ok(e) && p.currency != s.base
    ensures (forall l :: l in e.realized ==> AtBase(l)) && |e.realized| != 1
    ensures var booked := Sum(p.allocations, BookedDifference(s.documentRates, p.rate));
      Sum(e.realized, NetOn(account)) == OnIf(account == e.control, if IsCustomer(p) then booked else -booked)
                                         + GainLossNet(IsCustomer(p), s, p.rate, p.allocations, account)
    ensures e.realized == [] ==> Sum(e.realized, NetOn(account)) == 0
  {
    hide PaymentLines, RealizedLines, BookedDifference, IsCustomer, IsVendor, GainLossNet, OnIf;
    RealizedMoves(IsCustomer(p), e.control, s, p.rate, p.allocations, account);
    RealizedEmptyIff(IsCustomer(p), e.control, s, p.rate, p.allocations);
  }

  lemma RealizedDocumentMoves(paid: Books, p: Payment, s: Setup, e: PaymentEntry, account: string)
    requires forall l :: l in e.realized ==> AtBase(l)
    requires !HasOrigin(paid.rows, FromDocument("REALIZED_FX", p.id))
    requires !PostDocument(paid, RealizedDocument(p, s, e.realized)).1.Refused?
    ensures BaseOn(PostDocument(paid, RealizedDocument(p, s, e.realized)).0.rows, account) - BaseOn(paid.rows, account)
      == Sum(e.realized, NetOn(account))
  {
    hide PostDocument, DocumentRows, HasOrigin;
    var second := RealizedDocument(p, s, e.realized);
    FirstPostingAppends(paid, second);
    BaseMovementAtOne(second, account);
    SumAppend(paid.rows, DocumentRows(second), RowBaseNetOn(account));
  }

  lemma StillUnposted(b: Books, doc: Document, other: Document)
    requires doc.kind != other.kind && !HasOrigin(b.rows, FromDocument(other.kind, other.id))
    ensures !HasOrigin(b.rows + DocumentRows(doc), FromDocument(other.kind, other.id))
  {
  }

  /**
   The whole law: after a fully allocated foreign payment the control account has
   been relieved, in base currency, of the documents' carried value within the bound,
   besides what it got as settlement, gain or loss account: nothing, where those differ.
   */
  lemma PaymentClearsDocuments(b: Books, p: Payment, s: Setup)
    requires PostPayment(b, p, s).1.Complete? && Unposted(b, p.id)
    requires p.currency != s.base && p.rate > 0.0
    requires forall a :: a in p.allocations ==> a.cash >= 0
    requires p.amount == Sum(p.allocations, Cash())
    ensures var e := EntryOf(p, s).value;
      var other := BesidesRelief(p, s, e.settlement, e.control);
      var moved := BaseOn(PostPayment(b, p, s).0.rows, e.control) - BaseOn(b.rows, e.control) - other;
      var carried := Sum(p.allocations, Carried(s.documentRates, p.rate));
      var skipped := Sum(p.allocations, Skipped(s.documentRates, p.rate));
      && 2 * Abs((if IsCustomer(p) then -moved else moved) - carried) <= 200 * skipped + |p.allocations| + 1
      && (e.control != e.settlement && s.gain != Some(e.control) && s.loss != Some(e.control) ==> other == 0)
  {
    hide PostPayment, EntryOf, Carried, Skipped, Relieved, BaseOn, IsCustomer, Gains, Losses;
    CompleteHasEntry(b, p, s);
    ControlIsRelieved(b, p, s, EntryOf(p, s).value.control);
    RelievesCarriedValue(p, s);
  }

  lemma CompleteHasEntry(b: Books, p: Payment, s: Setup)
    requires PostPayment(b, p, s).1.Complete?
    ensures EntryOf(p, s).Ok?
  {
  }

  /** Once posted, a document is never posted again, whatever else has been added. */
  lemma PostsAgainAsReused(b: Books, doc: Document, more: seq<Row>)
    requires !PostDocument(b, doc).1.Refused?
    ensures var after := PostDocument(b, doc).0;
      var grown := after.(rows := after.rows + more);
      PostDocument(grown, doc).0 == grown && !PostDocument(grown, doc).1.Refused?
  {
    hide DocumentRows, ValidateContext;
    var after := PostDocument(b, doc).0;
    var grown := after.(rows := after.rows + more);
    ContextOfRows(b, after.rows + more, doc);
    var rows := DocumentRows(doc);
    if rows != [] && !HasOrigin(b.rows, FromDocument(doc.kind, doc.id)) {
      OriginOfRows(doc);
      assert rows[0] in grown.rows;
    }
  }

  lemma OriginOfRows(doc: Document)
    ensures forall r :: r in DocumentRows(doc) ==> r.origin == FromDocument(doc.kind, doc.id)
  {
  }

  lemma ContextOfRows(b: Books, rows: seq<Row>, doc: Document)
    ensures ValidateContext(b.(rows := rows), doc.date, Plain(doc.lines)) == ValidateContext(b, doc.date, Plain(doc.lines))
  {
  }

  lemma PostingAppends(b: Books, doc: Document) returns (more: seq<Row>)
    ensures PostDocument(b, doc).0 == b.(rows := b.rows + more)
  {
    more := if PostDocument(b, doc).0 == b then [] else DocumentRows(doc);
    assert b.rows + [] == b.rows;
  }

  /** Posting a completed payment again changes nothing. */
  lemma RepeatChangesNothing(b: Books, p: Payment, s: Setup)
    requires PostPayment(b, p, s).1.Complete?
    ensures PostPayment(PostPayment(b, p, s).0, p, s) == PostPayment(b, p, s)
  {
    hide PostDocument, EntryOf, DocumentRows;
    var e := EntryOf(p, s).value;
    var first := PaymentDocument(p, e.lines);
    var paid := PostDocument(b, first).0;
    PostsAgainAsReused(b, first, []);
    assert paid.(rows := paid.rows + []) == paid;
    if |e.realized| >= 2 {
      var second := RealizedDocument(p, s, e.realized);
      var booked := PostDocument(paid, second).0;
      PostsAgainAsReused(paid, second, []);
      assert booked.(rows := booked.rows + []) == booked;
      var more := PostingAppends(paid, second);
      PostsAgainAsReused(b, first, more);
    }
  }

  // ---- Which accounts a payment settles ----

  /** The subledger a payment belongs to: by its party, or by a document that it is allocated to. */
  ghost predicate FromCustomer(p: Payment) { p.ofCustomer || exists a :: a in p.allocations && a.target.Invoice? }
  ghost predicate ToVendor(p: Payment) { p.ofVendor || exists a :: a in p.allocations && a.target.Bill? }

  /** Receivable for a customer's payment, payable for one to a vendor. */
  ghost function SettledControl(p: Payment, s: Setup): Option<string> { if FromCustomer(p) then s.receivable else s.payable }

  /** The account a payment goes through: the one it names, that of its linked bank, or the company's bank. */
  ghost predicate GoesThrough(p: Payment, s: Setup, settlement: string) {
    && (p.deposit.Some? ==> p.deposit == Some(settlement))
    && (p.deposit.None? && p.linkedBank.Some? ==> p.linkedBank == Some(settlement))
    && (p.deposit.None? && p.linkedBank.None? ==> s.bank == Some(settlement) && !p.imported)
  }

  /**
   What stops a payment before anything is posted, in this order: it belongs to neither
   subledger or to both, it has no account to go through (an imported one is not given the
   company's bank), or its control account is missing.
   */
  lemma PaymentStops(b: Books, p: Payment, s: Setup)
    ensures var (after, outcome) := PostPayment(b, p, s);
      var nowhere := forall settlement :: !GoesThrough(p, s, settlement);
      && (FromCustomer(p) == ToVendor(p) ==> (after, outcome) == (b, Failed(NotOneSubledger)))
      && (FromCustomer(p) != ToVendor(p) && nowhere ==> (after, outcome) == (b, Failed(NoSettlementAccount)))
      && (FromCustomer(p) != ToVendor(p) && !nowhere && SettledControl(p, s).None? ==>
            (after, outcome) == (b, Failed(NoControlAccount)))
  {
    hide PostDocument, RealizedLines;
    var through := SettlementAccount(p, s.bank);
    if through.Some? { assert GoesThrough(p, s, through.value); }
  }

  lemma CompleteAccounts(b: Books, p: Payment, s: Setup)
    requires PostPayment(b, p, s).1.Complete?
    ensures EntryOf(p, s).Ok? && FromCustomer(p) != ToVendor(p) && FromCustomer(p) == IsCustomer(p)
    ensures SettledControl(p, s) == Some(EntryOf(p, s).value.control) && GoesThrough(p, s, EntryOf(p, s).value.settlement)
    ensures p.currency == s.base ==> EntryOf(p, s).value.realized == []
    ensures var e := EntryOf(p, s).value; e.lines == PaymentLines(IsCustomer(p), e.settlement, e.control, p)
  {
    hide PostDocument, RealizedLines;
  }

  /** What a payment puts on an account: in at settlement and off the control account for a customer, the other way for a vendor. */
  ghost function Passed(p: Payment, s: Setup, settlement: string, through: int, relieved: int, account: string): int {
    if FromCustomer(p) then OnIf(account == settlement, through) - OnIf(SettledControl(p, s) == Some(account), relieved)
    else OnIf(SettledControl(p, s) == Some(account), relieved) - OnIf(account == settlement, through)
  }

  /**
   A complete payment moves, in base currency, the account it goes through by the amount at
   its rate and its control account by what it relieves: receivable for a customer, payable
   for a vendor. A foreign one moves the gain and loss accounts besides; one in the base
   currency relieves exactly what goes through and moves no other account.
   */
  lemma PaymentSettles(b: Books, p: Payment, s: Setup, settlement: string, account: string)
    requires PostPayment(b, p, s).1.Complete? && Unposted(b, p.id) && p.rate > 0.0 && GoesThrough(p, s, settlement)
    ensures FromCustomer(p) != ToVendor(p) && SettledControl(p, s).Some?
    ensures var through := Convert(p.amount, p.rate);
      BaseOn(PostPayment(b, p, s).0.rows, account) - BaseOn(b.rows, account)
        == if p.currency == s.base then Passed(p, s, settlement, through, through, account)
           else Passed(p, s, settlement, through, Relieved(p, s), account)
                + GainLossNet(FromCustomer(p), s, p.rate, p.allocations, account)
  {
    hide PostDocument, EntryOf, HasOrigin, BookedDifference, IsCustomer, FromCustomer, ToVendor, GainLossNet, Convert, BaseOn, Sum;
    CompleteAccounts(b, p, s);
    var e := EntryOf(p, s).value;
    assert e.settlement == settlement;
    if p.currency == s.base {
      PaidMoves(b, p, s, e, account);
    } else {
      ControlIsRelieved(b, p, s, account);
    }
  }

  /**
   What an allocation books: the difference between its document's rate and the payment's
   when that is more than a hundredth, and nothing for a document without a rate.
   */
  lemma BookedBeyondCent(a: Allocation, rates: map<string, real>, rate: real)
    ensures BookedDifference(rates, rate)(a) ==
      if a.cash <= 0 || a.target.NoTarget? || a.target.id !in rates || rates[a.target.id] <= 0.0 then 0
      else
        var diff := Convert(a.cash, rate) - Convert(a.cash, rates[a.target.id]);
        if -100 <= diff <= 100 then 0 else diff
  {
    hide Convert;
  }

  // ---- By date, in the amounts of the rows ----

  lemma PaidMovement(b: Books, p: Payment, s: Setup, e: PaymentEntry, account: string, w: Window)
    requires EntryOf(p, s) == Ok(e) && Unposted(b, p.id) && e.lines == PaymentLines(IsCustomer(p), e.settlement, e.control, p)
    requires !PostDocument(b, PaymentDocument(p, e.lines)).1.Refused?
    ensures Movement(PostDocument(b, PaymentDocument(p, e.lines)).0.rows, account, w) - Movement(b.rows, account, w)
      == OnIf(Within(w, p.date), PaymentNet(IsCustomer(p), e.settlement, e.control, p.amount, account))
  {
    hide PostDocument, DocumentRows, Group, HasOrigin, IsCustomer, EntryOf, Movement;
    var doc := PaymentDocument(p, e.lines);
    FirstPostingAppends(b, doc);
    PaymentIsPositive(IsCustomer(p), e.settlement, e.control, p);
    MovementAppend(b.rows, DocumentRows(doc), account, w);
    DocumentMovement(doc, account, w);
    GroupOfTwo(e.lines);
    assert e.lines == [e.lines[0], e.lines[1]];
    SumOfTwo(e.lines[0], e.lines[1], NetOn(account));
  }

  lemma RealizedMovement(paid: Books, p: Payment, s: Setup, e: PaymentEntry, account: string, w: Window)
    requires forall l :: l in e.realized ==> AtBase(l)
    requires !HasOrigin(paid.rows, FromDocument("REALIZED_FX", p.id))
    requires !PostDocument(paid, RealizedDocument(p, s, e.realized)).1.Refused?
    ensures Movement(PostDocument(paid, RealizedDocument(p, s, e.realized)).0.rows, account, w) - Movement(paid.rows, account, w)
      == OnIf(Within(w, p.date), Sum(e.realized, NetOn(account)))
  {
    hide PostDocument, DocumentRows, HasOrigin, Movement, Group;
    var doc := RealizedDocument(p, s, e.realized);
    FirstPostingAppends(paid, doc);
    MovementAppend(paid.rows, DocumentRows(doc), account, w);
    DocumentMovement(doc, account, w);
    GroupKeepsTotals(e.realized, account);
  }

  /**
   Both entries are dated with the payment. Within a window that holds the date an account
   moves by the payment's own amount and the realized differences, outside it by nothing.
   */
  lemma PaymentMovement(b: Books, p: Payment, s: Setup, settlement: string, account: string, w: Window)
    requires PostPayment(b, p, s).1.Complete? && Unposted(b, p.id) && p.rate > 0.0 && GoesThrough(p, s, settlement)
    ensures Movement(PostPayment(b, p, s).0.rows, account, w) - Movement(b.rows, account, w)
      == if !Within(w, p.date) then 0
         else if p.currency == s.base then Passed(p, s, settlement, p.amount, p.amount, account)
         else Passed(p, s, settlement, p.amount, p.amount - Sum(p.allocations, BookedDifference(s.documentRates, p.rate)), account)
              + GainLossNet(FromCustomer(p), s, p.rate, p.allocations, account)
  {
    hide PostDocument, EntryOf, HasOrigin, BookedDifference, IsCustomer, FromCustomer, ToVendor, GainLossNet, Sum, Movement;
    CompleteAccounts(b, p, s);
    var e := EntryOf(p, s).value;
    assert e.settlement == settlement;
    PaidMovement(b, p, s, e, account, w);
    if p.currency != s.base {
      var paid := PostDocument(b, PaymentDocument(p, e.lines)).0;
      PaidMoves(b, p, s, e, account);
      EntryRealized(p, s, e, account);
      if |e.realized| >= 2 { RealizedMovement(paid, p, s, e, account, w); }
    }
  }

  // ---- Which rows, and what stops the realized ones ----

  /** A row of the payment itself is in its currency at its rate; a realized one is in the base currency, at one. */
  predicate RowOfPayment(r: Row, p: Payment, s: Setup) {
    && r.date == p.date && r.base.Base?
    && ((r.origin == FromDocument("PAYMENT", p.id) && r.currency == p.currency && r.base.rate == p.rate)
        || (r.origin == FromDocument("REALIZED_FX", p.id) && r.currency == s.base && r.base.rate == 1.0))
  }

  lemma DocumentRowsOfPayment(doc: Document, p: Payment, s: Setup)
    requires forall l :: l in doc.lines && Kept(l) ==> l.rate == if doc.kind == "PAYMENT" then Some(p.rate) else None
    requires doc == PaymentDocument(p, doc.lines) || doc == RealizedDocument(p, s, doc.lines)
    requires p.rate > 0.0
    ensures forall r :: r in DocumentRows(doc) ==> RowOfPayment(r, p, s)
  {
    hide DocumentRows;
    forall r | r in DocumentRows(doc) ensures RowOfPayment(r, p, s) {
      RowIsConverted(doc, r);
      var k: nat :| Begins(doc.lines, k, r) && AsksFor(doc.lines[k], doc.lookup, r.base.rate);
    }
  }

  lemma PaymentLinesRate(customer: bool, settlement: string, control: string, p: Payment)
    ensures forall l :: l in PaymentLines(customer, settlement, control, p) ==> l.rate == Some(p.rate)
  {
  }

  lemma BaseRealized(p: Payment, s: Setup, e: PaymentEntry)
    requires EntryOf(p, s) == Ok(e)
    ensures (forall l :: l in e.realized ==> l.rate == None) && (p.currency == s.base ==> e.realized == [])
  {
    hide PaymentLines, RealizedLines, IsCustomer, IsVendor;
    if p.currency != s.base { EntryRealized(p, s, e, ""); }
  }

  /** All a complete payment adds is rows of its own two entries. */
  lemma PaymentRowsAre(b: Books, p: Payment, s: Setup)
    requires PostPayment(b, p, s).1.Complete? && Unposted(b, p.id) && p.rate > 0.0
    ensures var t := PostPayment(b, p, s).0;
      && t == b.(rows := t.rows) && |b.rows| <= |t.rows| && t.rows[..|b.rows|] == b.rows
      && forall i :: |b.rows| <= i < |t.rows| ==> RowOfPayment(t.rows[i], p, s)
  {
    hide PostDocument, EntryOf, HasOrigin, DocumentRows, PaymentLines;
    CompleteAccounts(b, p, s);
    var e := EntryOf(p, s).value;
    var (first, second) := (PaymentDocument(p, e.lines), RealizedDocument(p, s, e.realized));
    FirstPostingAppends(b, first);
    PaymentLinesRate(IsCustomer(p), e.settlement, e.control, p);
    DocumentRowsOfPayment(first, p, s);
    if |e.realized| >= 2 {
      PaidMoves(b, p, s, e, "");
      FirstPostingAppends(PostDocument(b, first).0, second);
      BaseRealized(p, s, e);
      DocumentRowsOfPayment(second, p, s);
    }
  }

  /** Among the allocations is one to be booked whose gain, or loss, has no account. */
  ghost predicate LacksAccount(customer: bool, s: Setup, rate: real, allocations: seq<Allocation>, missing: PaymentError) {
    exists a :: a in allocations &&
      var diff := BookedDifference(s.documentRates, rate)(a);
      match missing
      case NoGainAccount => s.gain.None? && (if customer then diff > 0 else diff < 0)
      case NoLossAccount => s.loss.None? && (if customer then diff < 0 else diff > 0)
      case _ => false
  }

  lemma {:induction false} RealizedBuiltIff(customer: bool, control: string, s: Setup, rate: real, allocations: seq<Allocation>)
    ensures var lines := RealizedLines(customer, control, s, rate, allocations);
      && (lines.Ok? <==> forall missing :: !LacksAccount(customer, s, rate, allocations, missing))
      && (lines.Err? ==> LacksAccount(customer, s, rate, allocations, lines.error))
  {
    hide Difference;
    if allocations != [] {
      var init, last := allocations[..|allocations| - 1], allocations[|allocations| - 1];
      assert allocations == init + [last];
      RealizedBuiltIff(customer, control, s, rate, init);
      forall missing
        ensures LacksAccount(customer, s, rate, allocations, missing)
          <==> LacksAccount(customer, s, rate, init, missing) || LacksAccount(customer, s, rate, [last], missing)
      {
        LacksStep(customer, s, rate, init, last, missing);
      }
      assert last in [last];
      LastLacks(customer, s, rate, last);
    }
  }

  lemma LacksStep(customer: bool, s: Setup, rate: real, init: seq<Allocation>, last: Allocation, missing: PaymentError)
    ensures LacksAccount(customer, s, rate, init + [last], missing)
      <==> LacksAccount(customer, s, rate, init, missing) || LacksAccount(customer, s, rate, [last], missing)
  {
    hide BookedDifference;
  }

  lemma LastLacks(customer: bool, s: Setup, rate: real, last: Allocation)
    ensures LacksAccount(customer, s, rate, [last], NoGainAccount)
      <==> s.gain.None? && if customer then BookedDifference(s.documentRates, rate)(last) > 0
                           else BookedDifference(s.documentRates, rate)(last) < 0
    ensures LacksAccount(customer, s, rate, [last], NoLossAccount)
      <==> s.loss.None? && if customer then BookedDifference(s.documentRates, rate)(last) < 0
                           else BookedDifference(s.documentRates, rate)(last) > 0
  {
    hide BookedDifference;
    assert last in [last];
  }
}
