/** Revaluing foreign-currency balances of assets and liabilities at a new rate. */
module Revaluation {
  import opened Wrappers
  import opened Sums
  import opened Money
  import opened Accounts
  import opened Ledger
  import opened Posting
  import opened Books

  /** Rates to the base currency: the current ones, and the stored ones used where a row's own rate is zero. */
  datatype Rates = Rates(current: string -> real, stored: string -> real)

  datatype Setup = Setup(base: string, gain: Option<string>, loss: Option<string>)

  // ---- One account's balances by currency ----

  datatype Total = Total(currency: string, balance: int, lastRate: real)

  function RateOf(r: Row): Option<real> { if r.base.Base? then Some(r.base.rate) else None }

  function Updated(t: Total, r: Row): Total {
    t.(balance := t.balance + (r.debit - r.credit),
       lastRate := if RateOf(r).Some? && RateOf(r).value != 0.0 then RateOf(r).value else t.lastRate)
  }

  function IndexOfCurrency(totals: seq<Total>, currency: string): (k: nat)
    ensures k <= |totals| && (k < |totals| ==> totals[k].currency == currency)
    ensures k == |totals| ==> forall i :: 0 <= i < |totals| ==> totals[i].currency != currency
  {
    if totals == [] then 0
    else
      var k := IndexOfCurrency(totals[..|totals| - 1], currency);
      if k < |totals| - 1 then k else if totals[|totals| - 1].currency == currency then |totals| - 1 else |totals|
  }

  function AddRow(totals: seq<Total>, r: Row, base: string): seq<Total> {
    if r.currency == base then totals
    else
      var k := IndexOfCurrency(totals, r.currency);
      if k < |totals| then totals[k := Updated(totals[k], r)]
      else totals + [Updated(Total(r.currency, 0, if RateOf(r).Some? then RateOf(r).value else 1.0), r)]
  }

  function TotalsOf(rows: seq<Row>, base: string): seq<Total> {
    if rows == [] then [] else AddRow(TotalsOf(rows[..|rows| - 1], base), rows[|rows| - 1], base)
  }

  function UpTo(account: string, date: int): Row -> bool { (r: Row) => r.account == account && r.date <= date }

  /** The rows of an account that its one read brings: the server cuts the answer at its cap and says nothing. */
  function OwnRows(rows: seq<Row>, account: string, date: int, cap: nat): seq<Row> {
    var own := Filter(rows, UpTo(account, date));
    own[..Min(cap, |own|)]
  }

  /** The rows it does not bring. */
  function MissedRows(rows: seq<Row>, account: string, date: int, cap: nat): (missed: seq<Row>)
    ensures missed == [] <==> |Filter(rows, UpTo(account, date))| <= cap
  {
    var own := Filter(rows, UpTo(account, date));
    own[Min(cap, |own|)..]
  }

  // ---- The preview ----

  datatype PreviewLine = PreviewLine(account: string, currency: string, balance: int, prior: real, current: real, adjustment: int)

  function UnrealizedAdjustment(balance: int, prior: real, current: real): int {
    Convert(balance, current) - Convert(balance, prior)
  }

  function LineFor(account: string, t: Total, rates: Rates): PreviewLine {
    var prior := if t.lastRate != 0.0 then t.lastRate else rates.stored(t.currency);
    var current := rates.current(t.currency);
    PreviewLine(account, t.currency, t.balance, prior, current, UnrealizedAdjustment(t.balance, prior, current))
  }

  predicate Worth(l: PreviewLine) { l.balance != 0 && Abs(l.adjustment) >= CENT }

  function AccountLines(account: string, totals: seq<Total>, rates: Rates): seq<PreviewLine> {
    if totals == [] then []
    else
      var before := AccountLines(account, totals[..|totals| - 1], rates);
      var line := LineFor(account, totals[|totals| - 1], rates);
      if Worth(line) then before + [line] else before
  }

  predicate Revalued(a: Account) { a.kind in {Asset, Liability} && a.active && !a.deleted }

  function PreviewLines(chart: seq<Account>, rows: seq<Row>, date: int, base: string, rates: Rates, cap: nat): seq<PreviewLine> {
    if chart == [] then []
    else
      var last := chart[|chart| - 1];
      var before := PreviewLines(chart[..|chart| - 1], rows, date, base, rates, cap);
      if !Revalued(last) then before
      else before + AccountLines(last.id, TotalsOf(OwnRows(rows, last.id, date, cap), base), rates)
  }

  function Adjustment(): PreviewLine -> int { (l: PreviewLine) => l.adjustment }
  function GainOf(): PreviewLine -> int { (l: PreviewLine) => if l.adjustment > 0 then l.adjustment else 0 }
  function LossOf(): PreviewLine -> int { (l: PreviewLine) => if l.adjustment > 0 then 0 else Abs(l.adjustment) }

  /** Adds a row to its currency's running balance, remembering the last rate that is not zero. */
  method AddToCurrency(totals: seq<Total>, r: Row, base: string) returns (after: seq<Total>)
    ensures after == AddRow(totals, r, base)
  {
    if r.currency == base { return totals; }
    var k := IndexOfCurrency(totals, r.currency);
    var existing :=
      if k < |totals| then totals[k] else Total(r.currency, 0, if RateOf(r).Some? then RateOf(r).value else 1.0);
    existing := existing.(balance := existing.balance + (r.debit - r.credit));
    if RateOf(r).Some? && RateOf(r).value != 0.0 { existing := existing.(lastRate := RateOf(r).value); }
    after := if k < |totals| then totals[k := existing] else totals + [existing];
  }

  method CurrencyTotals(rows: seq<Row>, base: string) returns (totals: seq<Total>)
    ensures totals == TotalsOf(rows, base)
  {
    hide AddRow;
    totals := [];
    for i := 0 to |rows|
      invariant totals == TotalsOf(rows[..i], base)
    {
      assert rows[..i + 1][..i] == rows[..i];
      totals := AddToCurrency(totals, rows[i], base);
    }
    assert rows[..|rows|] == rows;
  }

  method PreviewAccount(account: string, totals: seq<Total>, rates: Rates)
    returns (lines: seq<PreviewLine>, gain: int, loss: int)
    ensures lines == AccountLines(account, totals, rates)
    ensures gain == Sum(lines, GainOf()) && loss == Sum(lines, LossOf())
  {
    lines, gain, loss := [], 0, 0;
    for i := 0 to |totals|
      invariant lines == AccountLines(account, totals[..i], rates)
      invariant gain == Sum(lines, GainOf()) && loss == Sum(lines, LossOf())
    {
      assert totals[..i + 1][..i] == totals[..i];
      var line := LineFor(account, totals[i], rates);
      if line.balance == 0 || Abs(line.adjustment) < CENT { continue; }
      SumStep(lines, line, GainOf());
      SumStep(lines, line, LossOf());
      lines := lines + [line];
      if line.adjustment > 0 { gain := gain + line.adjustment; } else { loss := loss + Abs(line.adjustment); }
    }
    assert totals[..|totals|] == totals;
  }

  method PreviewCurrencyRevaluation(chart: seq<Account>, rows: seq<Row>, date: int, base: string, rates: Rates, cap: nat)
    returns (lines: seq<PreviewLine>, totalGain: int, totalLoss: int)
    ensures lines == PreviewLines(chart, rows, date, base, rates, cap)
    ensures totalGain == Sum(lines, GainOf()) && totalLoss == Sum(lines, LossOf())
  {
    hide TotalsOf, AccountLines, OwnRows;
    lines, totalGain, totalLoss := [], 0, 0;
    for i := 0 to |chart|
      invariant lines == PreviewLines(chart[..i], rows, date, base, rates, cap)
      invariant totalGain == Sum(lines, GainOf()) && totalLoss == Sum(lines, LossOf())
    {
      assert chart[..i + 1][..i] == chart[..i];
      var a := chart[i];
      if !(a.kind in {Asset, Liability} && a.active && !a.deleted) { continue; }
      var totals := CurrencyTotals(OwnRows(rows, a.id, date, cap), base);
      var more, gain, loss := PreviewAccount(a.id, totals, rates);
      SumAppend(lines, more, GainOf());
      SumAppend(lines, more, LossOf());
      lines, totalGain, totalLoss := lines + more, totalGain + gain, totalLoss + loss;
    }
    assert chart[..|chart|] == chart;
  }

  // ---- The entry ----

  function Pair(l: PreviewLine, s: Setup): seq<PostingLine> {
    var amount := Abs(l.adjustment);
    if l.adjustment > 0 then
      [PostingLine(l.account, amount, 0, None, None)]
      + if s.gain.Some? then [PostingLine(s.gain.value, 0, amount, None, None)] else []
    else
      [PostingLine(l.account, 0, amount, None, None)]
      + if s.loss.Some? then [PostingLine(s.loss.value, amount, 0, None, None)] else []
  }

  function EntryLines(lines: seq<PreviewLine>, s: Setup): seq<PostingLine> {
    if lines == [] then [] else EntryLines(lines[..|lines| - 1], s) + Pair(lines[|lines| - 1], s)
  }

  /** The account's line, then the gain or loss line where that account exists. */
  method PushPair(entry: seq<PostingLine>, l: PreviewLine, s: Setup) returns (after: seq<PostingLine>)
    ensures after == entry + Pair(l, s)
  {
    var amount := Abs(l.adjustment);
    if l.adjustment > 0 {
      after := entry + [PostingLine(l.account, amount, 0, None, None)];
      if s.gain.Some? { after := after + [PostingLine(s.gain.value, 0, amount, None, None)]; }
    } else {
      after := entry + [PostingLine(l.account, 0, amount, None, None)];
      if s.loss.Some? { after := after + [PostingLine(s.loss.value, amount, 0, None, None)]; }
    }
  }

  method BuildEntry(lines: seq<PreviewLine>, s: Setup) returns (entry: seq<PostingLine>)
    ensures entry == EntryLines(lines, s)
  {
    hide Pair;
    entry := [];
    for i := 0 to |lines|
      invariant entry == EntryLines(lines[..i], s)
    {
      assert lines[..i + 1][..i] == lines[..i];
      entry := PushPair(entry, lines[i], s);
    }
    assert lines[..|lines|] == lines;
  }

  datatype RevaluationOutcome = NothingToRevalue | Stopped(why: Refusal) | MarkedPosted(journalPosted: bool)

  function RevaluationDocument(id: string, date: int, s: Setup, entry: seq<PostingLine>): Document {
    Document("FX_REVALUATION", id, date, s.base, 1.0, entry)
  }

  function RunRevaluation(b: Books, id: string, date: int, s: Setup, rates: Rates, cap: nat): (Books, RevaluationOutcome) {
    var lines := PreviewLines(b.chart, b.rows, date, s.base, rates, cap);
    var entry := EntryLines(lines, s);
    if lines == [] then (b, NothingToRevalue)
    else if |entry| < 2 then (b, MarkedPosted(false))
    else
      var (posted, outcome) := PostDocument(b, RevaluationDocument(id, date, s, entry));
      (posted, if outcome.Refused? then Stopped(outcome.why) else MarkedPosted(true))
  }

  // ---- What the preview reads ----

  function NetInCurrency(currency: string): Row -> int {
    (r: Row) => if r.currency == currency then r.debit - r.credit else 0
  }
  function ForeignNet(account: string, currency: string, date: int): Row -> int {
    (r: Row) => if r.account == account && r.currency == currency && r.date <= date then r.debit - r.credit else 0
  }

  ghost predicate TotalsOk(totals: seq<Total>, rows: seq<Row>, base: string) {
    && (forall i, j :: 0 <= i < j < |totals| ==> totals[i].currency != totals[j].currency)
    && (forall t :: t in totals ==> t.currency != base && t.balance == Sum(rows, NetInCurrency(t.currency)))
    && forall r :: r in rows && r.currency != base ==> exists t :: t in totals && t.currency == r.currency
  }

  lemma {:induction false} NoRowsInCurrency(rows: seq<Row>, currency: string)
    requires forall r :: r in rows ==> r.currency != currency
    ensures Sum(rows, NetInCurrency(currency)) == 0
  {
    SumZero(rows, NetInCurrency(currency));
  }

  lemma AddRowOk(totals: seq<Total>, rows: seq<Row>, r: Row, base: string)
    requires TotalsOk(totals, rows, base)
    ensures TotalsOk(AddRow(totals, r, base), rows + [r], base)
  {
    hide RateOf, Sum;
    var after := AddRow(totals, r, base);
    var k := IndexOfCurrency(totals, r.currency);
    forall t | t in after
      ensures t.currency != base && t.balance == Sum(rows + [r], NetInCurrency(t.currency))
    {
      SumStep(rows, r, NetInCurrency(t.currency));
      var i :| 0 <= i < |after| && after[i] == t;
      if i == |totals| { NoRowsInCurrency(rows, r.currency); } else { assert totals[i] in totals; }
    }
    forall q | q in rows + [r] && q.currency != base ensures exists t :: t in after && t.currency == q.currency {
      if q.currency == r.currency {
        assert after[k] in after;
      } else {
        var t :| t in totals && t.currency == q.currency;
        var i :| 0 <= i < |totals| && totals[i] == t;
        assert after[i] in after;
      }
    }
  }

  /** One total for each foreign currency of the rows, holding their net amount in it. */
  lemma {:induction false} TotalsAreBalances(rows: seq<Row>, base: string)
    ensures TotalsOk(TotalsOf(rows, base), rows, base)
  {
    hide TotalsOk, AddRow;
    if rows != [] {
      var init, last := rows[..|rows| - 1], rows[|rows| - 1];
      TotalsAreBalances(init, base);
      AddRowOk(TotalsOf(init, base), init, last, base);
      assert rows == init + [last];
    } else {
      EmptyTotals(base);
    }
  }

  /** A row that carries a rate for the currency. */
  predicate Rated(r: Row, currency: string) {
    r.currency == currency && RateOf(r).Some? && RateOf(r).value != 0.0
  }

  /** The rate of the last row that carries one for the currency; 0 or 1 when none does. */
  ghost predicate IsLastRate(rows: seq<Row>, currency: string, rate: real) {
    || (exists i :: 0 <= i < |rows| && Rated(rows[i], currency) && RateOf(rows[i]) == Some(rate)
          && forall j :: i < j < |rows| ==> !Rated(rows[j], currency))
    || ((forall i :: 0 <= i < |rows| ==> !Rated(rows[i], currency)) && (rate == 0.0 || rate == 1.0))
  }

  lemma LastRateStep(rows: seq<Row>, r: Row, currency: string, rate: real)
    requires IsLastRate(rows, currency, rate)
    ensures IsLastRate(rows + [r], currency, if Rated(r, currency) then RateOf(r).value else rate)
  {
    hide RateOf;
    var more := rows + [r];
    assert more[|rows|] == r && forall i :: 0 <= i < |rows| ==> more[i] == rows[i];
    if !Rated(r, currency) && exists i :: 0 <= i < |rows| && Rated(rows[i], currency) {
      var i :| 0 <= i < |rows| && Rated(rows[i], currency) && RateOf(rows[i]) == Some(rate)
        && forall j :: i < j < |rows| ==> !Rated(rows[j], currency);
      assert Rated(more[i], currency);
    }
  }

  lemma FirstRate(rows: seq<Row>, r: Row)
    requires forall q :: q in rows ==> q.currency != r.currency
    ensures IsLastRate(rows + [r], r.currency, Updated(Total(r.currency, 0, if RateOf(r).Some? then RateOf(r).value else 1.0), r).lastRate)
  {
    var more := rows + [r];
    assert more[|rows|] == r && forall i :: 0 <= i < |rows| ==> more[i] == rows[i] && rows[i] in rows;
  }

  /** The rate remembered for each currency is the last one its rows carry. */
  lemma {:induction false} TotalsRemember(rows: seq<Row>, base: string)
    ensures forall t :: t in TotalsOf(rows, base) ==> IsLastRate(rows, t.currency, t.lastRate)
  {
    hide IsLastRate, RateOf;
    if rows != [] {
      var init, r := rows[..|rows| - 1], rows[|rows| - 1];
      assert rows == init + [r];
      var before, after := TotalsOf(init, base), TotalsOf(rows, base);
      TotalsRemember(init, base);
      TotalsAreBalances(init, base);
      forall t | t in after ensures IsLastRate(rows, t.currency, t.lastRate) {
        var i :| 0 <= i < |after| && after[i] == t;
        if i < |before| {
          assert before[i] in before;
          LastRateStep(init, r, t.currency, before[i].lastRate);
        } else {
          FirstRate(init, r);
        }
      }
    }
  }

  lemma EmptyTotals(base: string)
    ensures TotalsOk([], [], base)
  {
  }

  lemma {:induction false} FilterNet(rows: seq<Row>, account: string, currency: string, date: int)
    ensures Sum(Filter(rows, UpTo(account, date)), NetInCurrency(currency)) == Sum(rows, ForeignNet(account, currency, date))
  {
    SumFilter(rows, UpTo(account, date), ForeignNet(account, currency, date));
    SumSame(Filter(rows, UpTo(account, date)), NetInCurrency(currency), ForeignNet(account, currency, date));
  }

  /** The rate a balance is adjusted from: the last one the rows carry, or the stored one where that is zero. */
  ghost predicate IsPrior(own: seq<Row>, currency: string, prior: real, rates: Rates) {
    || (prior != 0.0 && IsLastRate(own, currency, prior))
    || (IsLastRate(own, currency, 0.0) && prior == rates.stored(currency))
  }

  /**
   What a preview line says: the account's balance in a foreign currency less that of the
   rows the read missed, from the last rate the rows read carry to the current one, worth
   at least a hundredth to adjust.
   */
  ghost predicate LineTrue(l: PreviewLine, rows: seq<Row>, date: int, base: string, rates: Rates, cap: nat) {
    && l.currency != base && l.balance != 0 && (l.adjustment >= CENT || -l.adjustment >= CENT)
    && l.current == rates.current(l.currency)
    && IsPrior(OwnRows(rows, l.account, date, cap), l.currency, l.prior, rates)
    && l.balance == Sum(rows, ForeignNet(l.account, l.currency, date))
                    - Sum(MissedRows(rows, l.account, date, cap), NetInCurrency(l.currency))
    && l.adjustment == Convert(l.balance, l.current) - Convert(l.balance, l.prior)
  }

  lemma {:induction false} AccountLinesFrom(account: string, totals: seq<Total>, rates: Rates)
    ensures forall l :: l in AccountLines(account, totals, rates) ==>
      Worth(l) && exists t :: t in totals && l == LineFor(account, t, rates)
    ensures forall t :: t in totals && Worth(LineFor(account, t, rates)) ==>
      LineFor(account, t, rates) in AccountLines(account, totals, rates)
  {
    hide LineFor, Worth;
    if totals != [] {
      var init, last := totals[..|totals| - 1], totals[|totals| - 1];
      assert totals == init + [last];
      AccountLinesFrom(account, init, rates);
    }
  }

  /** What the rows read and the rows missed hold together is the whole balance. */
  lemma ReadNet(rows: seq<Row>, account: string, currency: string, date: int, cap: nat)
    ensures Sum(OwnRows(rows, account, date, cap), NetInCurrency(currency))
         == Sum(rows, ForeignNet(account, currency, date)) - Sum(MissedRows(rows, account, date, cap), NetInCurrency(currency))
  {
    hide Filter, Sum;
    var own := Filter(rows, UpTo(account, date));
    FilterNet(rows, account, currency, date);
    assert own == OwnRows(rows, account, date, cap) + MissedRows(rows, account, date, cap);
    SumAppend(OwnRows(rows, account, date, cap), MissedRows(rows, account, date, cap), NetInCurrency(currency));
  }

  /** The totals behind an account's lines: each line holds the balance of its account's rows in its currency. */
  lemma AccountLinesTrue(account: string, rows: seq<Row>, date: int, base: string, rates: Rates, cap: nat)
    ensures forall l :: l in AccountLines(account, TotalsOf(OwnRows(rows, account, date, cap), base), rates) ==>
      LineTrue(l, rows, date, base, rates, cap)
  {
    hide TotalsOf, AccountLines, OwnRows, MissedRows, Convert, IsLastRate;
    var own := OwnRows(rows, account, date, cap);
    var totals := TotalsOf(own, base);
    TotalsAreBalances(own, base);
    TotalsRemember(own, base);
    AccountLinesFrom(account, totals, rates);
    forall l | l in AccountLines(account, totals, rates) ensures LineTrue(l, rows, date, base, rates, cap) {
      var t :| t in totals && l == LineFor(account, t, rates);
      ReadNet(rows, account, t.currency, date, cap);
    }
  }

  lemma {:induction false} PreviewIsTrue(chart: seq<Account>, rows: seq<Row>, date: int, base: string, rates: Rates, cap: nat)
    ensures forall l :: l in PreviewLines(chart, rows, date, base, rates, cap) ==>
      && LineTrue(l, rows, date, base, rates, cap)
      && exists a :: a in chart && a.id == l.account && (a.kind.Asset? || a.kind.Liability?) && a.active && !a.deleted
  {
    hide LineTrue, TotalsOf, AccountLines, OwnRows;
    if chart != [] {
      var init, last := chart[..|chart| - 1], chart[|chart| - 1];
      assert chart == init + [last];
      PreviewIsTrue(init, rows, date, base, rates, cap);
      AccountLinesTrue(last.id, rows, date, base, rates, cap);
      AccountLinesFrom(last.id, TotalsOf(OwnRows(rows, last.id, date, cap), base), rates);
    }
  }

  /** A line holds the account's whole balance exactly when the rows missed net to nothing in its currency, as when none is missed. */
  lemma WholeBalanceIff(chart: seq<Account>, rows: seq<Row>, date: int, base: string, rates: Rates, cap: nat, l: PreviewLine)
    requires l in PreviewLines(chart, rows, date, base, rates, cap)
    ensures l.balance == Sum(rows, ForeignNet(l.account, l.currency, date))
       <==> Sum(MissedRows(rows, l.account, date, cap), NetInCurrency(l.currency)) == 0
    ensures |Filter(rows, UpTo(l.account, date))| <= cap ==> l.balance == Sum(rows, ForeignNet(l.account, l.currency, date))
  {
    hide PreviewLines, MissedRows, OwnRows, Filter;
    PreviewIsTrue(chart, rows, date, base, rates, cap);
    NoRowsInCurrency([], l.currency);
  }

  lemma {:induction false} LinesOfAccount(chart: seq<Account>, rows: seq<Row>, date: int, base: string, rates: Rates, cap: nat, a: Account)
    requires a in chart && Revalued(a)
    ensures forall l :: l in AccountLines(a.id, TotalsOf(OwnRows(rows, a.id, date, cap), base), rates) ==>
      l in PreviewLines(chart, rows, date, base, rates, cap)
  {
    hide TotalsOf, AccountLines, OwnRows, Revalued;
    var init, last := chart[..|chart| - 1], chart[|chart| - 1];
    assert chart == init + [last];
    if a != last { LinesOfAccount(init, rows, date, base, rates, cap, a); }
  }

  /** The line of a balance that was read, adjusted from this rate. */
  function LineOf(account: string, currency: string, own: seq<Row>, prior: real, rates: Rates): PreviewLine {
    var (balance, current) := (Sum(own, NetInCurrency(currency)), rates.current(currency));
    PreviewLine(account, currency, balance, prior, current, Convert(balance, current) - Convert(balance, prior))
  }

  /** And nothing is left out: a foreign balance that was read has its line exactly when that is worth adjusting. */
  lemma PreviewIsComplete(
      chart: seq<Account>, rows: seq<Row>, date: int, base: string, rates: Rates, cap: nat, a: Account, currency: string)
    requires a in chart && (a.kind.Asset? || a.kind.Liability?) && a.active && !a.deleted && currency != base
    requires Sum(OwnRows(rows, a.id, date, cap), NetInCurrency(currency)) != 0
    ensures var own := OwnRows(rows, a.id, date, cap);
      exists prior :: IsPrior(own, currency, prior, rates) &&
        var line := LineOf(a.id, currency, own, prior, rates);
        line in PreviewLines(chart, rows, date, base, rates, cap) <==> line.adjustment >= CENT || -line.adjustment >= CENT
  {
    hide TotalsOf, AccountLines, OwnRows, PreviewLines, Convert, IsLastRate;
    var own := OwnRows(rows, a.id, date, cap);
    var totals := TotalsOf(own, base);
    TotalsAreBalances(own, base);
    TotalsRemember(own, base);
    if forall r :: r in own ==> r.currency != currency { NoRowsInCurrency(own, currency); }
    var t :| t in totals && t.currency == currency;
    var line := LineFor(a.id, t, rates);
    AccountLinesFrom(a.id, totals, rates);
    LinesOfAccount(chart, rows, date, base, rates, cap, a);
    PreviewIsTrue(chart, rows, date, base, rates, cap);
    assert IsPrior(own, currency, line.prior, rates) && line == LineOf(a.id, currency, own, line.prior, rates);
  }

  // ---- Gains, losses and balance ----

  /** Gain less loss is the sum of the adjustments. */
  lemma NetAdjustment(lines: seq<PreviewLine>)
    ensures Sum(lines, GainOf()) - Sum(lines, LossOf()) == Sum(lines, Adjustment())
    ensures Sum(lines, GainOf()) >= 0 && Sum(lines, LossOf()) >= 0
  {
    SumAdd(lines, Adjustment(), LossOf(), GainOf());
    SumNonNegative(lines, GainOf());
    SumNonNegative(lines, LossOf());
  }

  function PairNet(s: Setup, f: PostingLine -> int): PreviewLine -> int {
    (l: PreviewLine) => Sum(Pair(l, s), f)
  }

  lemma {:induction false} EntrySum(lines: seq<PreviewLine>, s: Setup, f: PostingLine -> int)
    ensures Sum(EntryLines(lines, s), f) == Sum(lines, PairNet(s, f))
  {
    if lines != [] {
      var init, last := lines[..|lines| - 1], lines[|lines| - 1];
      EntrySum(init, s, f);
      SumAppend(EntryLines(init, s), Pair(last, s), f);
    }
  }

  lemma PairSum(l: PreviewLine, s: Setup, f: PostingLine -> int)
    ensures var pair := Pair(l, s);
      Sum(pair, f) == f(pair[0]) + if |pair| == 2 then f(pair[1]) else 0
  {
    var pair := Pair(l, s);
    if |pair| == 2 {
      assert pair == [pair[0], pair[1]];
      SumOfTwo(pair[0], pair[1], f);
    } else {
      SumOfOne(pair[0], f);
      assert pair == [pair[0]];
    }
  }

  /** What a missing gain or loss account leaves unbalanced. */
  function OneSidedNet(s: Setup): PreviewLine -> int {
    (l: PreviewLine) =>
      if l.adjustment > 0 then (if s.gain.Some? then 0 else l.adjustment)
      else if s.loss.Some? then 0 else l.adjustment
  }

  lemma PairImbalance(l: PreviewLine, s: Setup)
    ensures PairNet(s, NetOf())(l) == OneSidedNet(s)(l)
    ensures PairNet(s, DebitOf())(l) == (if l.adjustment > 0 || s.loss.Some? then Abs(l.adjustment) else 0)
  {
    PairSum(l, s, NetOf());
    PairSum(l, s, DebitOf());
  }

  function When(present: Option<string>, f: PreviewLine -> int): PreviewLine -> int {
    (l: PreviewLine) => if present.Some? then 0 else f(l)
  }

  lemma WhenSum(lines: seq<PreviewLine>, present: Option<string>, f: PreviewLine -> int)
    ensures Sum(lines, When(present, f)) == if present.Some? then 0 else Sum(lines, f)
  {
    if present.Some? { SumZero(lines, When(present, f)); } else { SumSame(lines, When(present, f), f); }
  }

  lemma EntryImbalance(lines: seq<PreviewLine>, s: Setup)
    ensures Sum(EntryLines(lines, s), NetOf())
         == (if s.gain.Some? then 0 else Sum(lines, GainOf())) - (if s.loss.Some? then 0 else Sum(lines, LossOf()))
  {
    hide PairNet;
    EntrySum(lines, s, NetOf());
    forall l | l in lines ensures PairNet(s, NetOf())(l) == OneSidedNet(s)(l) { PairImbalance(l, s); }
    SumSame(lines, PairNet(s, NetOf()), OneSidedNet(s));
    WhenSum(lines, s.gain, GainOf());
    WhenSum(lines, s.loss, LossOf());
    SumAdd(lines, OneSidedNet(s), When(s.loss, LossOf()), When(s.gain, GainOf()));
  }

  /** With both accounts there, each side of the entry is the total gain plus the total loss. */
  lemma EntryBalances(lines: seq<PreviewLine>, s: Setup)
    requires s.gain.Some? && s.loss.Some?
    ensures Sum(EntryLines(lines, s), NetOf()) == 0
    ensures Sum(EntryLines(lines, s), DebitOf()) == Sum(lines, GainOf()) + Sum(lines, LossOf())
  {
    EntryImbalance(lines, s);
    EntrySum(lines, s, DebitOf());
    forall l | l in lines ensures PairNet(s, DebitOf())(l) == GainOf()(l) + LossOf()(l) { PairImbalance(l, s); }
    SumAdd(lines, GainOf(), LossOf(), PairNet(s, DebitOf()));
  }

  // ---- What the entry moves ----

  function AdjustmentOn(account: string): PreviewLine -> int {
    (l: PreviewLine) => if l.account == account then Convert(l.balance, l.current) - Convert(l.balance, l.prior) else 0
  }

  /** What the entry puts on an account as gain or loss account. */
  function GainLossNet(lines: seq<PreviewLine>, s: Setup, account: string): int {
    OnIf(s.loss == Some(account), Sum(lines, LossOf())) - OnIf(s.gain == Some(account), Sum(lines, GainOf()))
  }

  /** The same of one line. */
  function GainLossOn(s: Setup, account: string): PreviewLine -> int {
    (l: PreviewLine) => OnIf(s.loss == Some(account), LossOf()(l)) - OnIf(s.gain == Some(account), GainOf()(l))
  }

  lemma {:induction false} GainLossSum(lines: seq<PreviewLine>, s: Setup, account: string)
    ensures Sum(lines, GainLossOn(s, account)) == GainLossNet(lines, s, account)
  {
    if lines != [] { GainLossSum(lines[..|lines| - 1], s, account); }
  }

  lemma PairMoves(l: PreviewLine, s: Setup, account: string)
    ensures PairNet(s, NetOn(account))(l) == OnIf(l.account == account, l.adjustment) + GainLossOn(s, account)(l)
  {
    PairSum(l, s, NetOn(account));
    var (gain, loss) := (GainOf()(l), LossOf()(l));
    assert GainLossOn(s, account)(l) == OnIf(s.loss == Some(account), loss) - OnIf(s.gain == Some(account), gain);
    assert NetOn(account)(Pair(l, s)[0]) == OnIf(l.account == account, l.adjustment);
  }

  /**
   The entry moves an account by its own adjustments, debits it with the total loss
   if it is the loss account and credits it with the total gain if it is the gain
   account: by all of these if it is several.
   */
  lemma EntryMoves(lines: seq<PreviewLine>, s: Setup, account: string)
    requires forall l :: l in lines ==> l.adjustment == Convert(l.balance, l.current) - Convert(l.balance, l.prior)
    ensures Sum(EntryLines(lines, s), NetOn(account)) == Sum(lines, AdjustmentOn(account)) + GainLossNet(lines, s, account)
  {
    hide Convert, PairNet, EntryLines, GainLossOn, GainLossNet;
    EntrySum(lines, s, NetOn(account));
    forall l | l in lines
      ensures PairNet(s, NetOn(account))(l) == AdjustmentOn(account)(l) + GainLossOn(s, account)(l)
    {
      PairMoves(l, s, account);
    }
    SumAdd(lines, AdjustmentOn(account), GainLossOn(s, account), PairNet(s, NetOn(account)));
    GainLossSum(lines, s, account);
  }

  lemma {:induction false} EntryAtBase(lines: seq<PreviewLine>, s: Setup)
    ensures forall l :: l in EntryLines(lines, s) ==> NonNegative(l) && l.rate.None?
  {
    if lines != [] { EntryAtBase(lines[..|lines| - 1], s); }
  }

  lemma EntryCurrency(id: string, date: int, s: Setup, entry: seq<PostingLine>)
    ensures forall r :: r in DocumentRows(RevaluationDocument(id, date, s, entry)) ==> r.currency == s.base
  {
  }

  /**
   A posted revaluation moves each account, in base currency, from the rounded
   value of its adjusted balances at their old rates to that at the new ones, and
   besides by the total gain or loss where it is the gain or loss account. It leaves
   every foreign balance alone.
   */
  lemma RevaluationMoves(b: Books, id: string, date: int, s: Setup, rates: Rates, cap: nat, account: string, currency: string, asOf: int)
    requires RunRevaluation(b, id, date, s, rates, cap).1 == MarkedPosted(true)
    requires !HasOrigin(b.rows, FromDocument("FX_REVALUATION", id))
    ensures var after := RunRevaluation(b, id, date, s, rates, cap).0;
      var lines := PreviewLines(b.chart, b.rows, date, s.base, rates, cap);
      && Sum(after.rows, RowBaseNetOn(account)) - Sum(b.rows, RowBaseNetOn(account))
         == Sum(lines, AdjustmentOn(account)) + GainLossNet(lines, s, account)
      && (currency != s.base ==>
            Sum(after.rows, ForeignNet(account, currency, asOf)) == Sum(b.rows, ForeignNet(account, currency, asOf)))
  {
    hide PreviewLines, EntryLines, PostDocument, DocumentRows, Convert, GainLossNet;
    var lines := PreviewLines(b.chart, b.rows, date, s.base, rates, cap);
    var entry := EntryLines(lines, s);
    var doc := RevaluationDocument(id, date, s, entry);
    FirstPostingAppends(b, doc);
    PreviewIsTrue(b.chart, b.rows, date, s.base, rates, cap);
    EntryMoves(lines, s, account);
    EntryAtBase(lines, s);
    BaseMovementAtOne(doc, account);
    SumAppend(b.rows, DocumentRows(doc), RowBaseNetOn(account));
    EntryCurrency(id, date, s, entry);
    SumAppend(b.rows, DocumentRows(doc), ForeignNet(account, currency, asOf));
    if currency != s.base { SumZero(DocumentRows(doc), ForeignNet(account, currency, asOf)); }
  }

  /**
   The entry is dated with the revaluation and is in the base currency: within a window
   that holds the date each account moves by its adjustments and the gain or loss that it
   collects, outside it by nothing.
   */
  lemma RevaluationMovement(b: Books, id: string, date: int, s: Setup, rates: Rates, cap: nat, account: string, w: Window)
    requires RunRevaluation(b, id, date, s, rates, cap).1 == MarkedPosted(true)
    requires !HasOrigin(b.rows, FromDocument("FX_REVALUATION", id))
    ensures var after := RunRevaluation(b, id, date, s, rates, cap).0;
      var lines := PreviewLines(b.chart, b.rows, date, s.base, rates, cap);
      && Movement(after.rows, account, w) - Movement(b.rows, account, w)
         == (if Within(w, date) then Sum(lines, AdjustmentOn(account)) + GainLossNet(lines, s, account) else 0)
      && |b.rows| <= |after.rows| && forall i :: |b.rows| <= i < |after.rows| ==> after.rows[i].currency == s.base
  {
    hide PreviewLines, EntryLines, PostDocument, DocumentRows, Convert, GainLossNet, Group, Movement;
    var lines := PreviewLines(b.chart, b.rows, date, s.base, rates, cap);
    var entry := EntryLines(lines, s);
    var doc := RevaluationDocument(id, date, s, entry);
    FirstPostingAppends(b, doc);
    PreviewIsTrue(b.chart, b.rows, date, s.base, rates, cap);
    EntryMoves(lines, s, account);
    EntryAtBase(lines, s);
    GroupKeepsTotals(entry, account);
    DocumentMovement(doc, account, w);
    MovementAppend(b.rows, DocumentRows(doc), account, w);
    EntryCurrency(id, date, s, entry);
  }

  // ---- Running it again ----

  lemma {:induction false} TotalsIgnoreBase(rows: seq<Row>, more: seq<Row>, base: string)
    requires forall r :: r in more ==> r.currency == base
    ensures TotalsOf(rows + more, base) == TotalsOf(rows, base)
  {
    if more == [] {
      assert rows + more == rows;
    } else {
      var init := more[..|more| - 1];
      assert (rows + more)[..|rows + more| - 1] == rows + init;
      TotalsIgnoreBase(rows, init, base);
    }
  }

  lemma {:induction false} PreviewIgnoresBase(
      chart: seq<Account>, rows: seq<Row>, more: seq<Row>, date: int, base: string, rates: Rates, cap: nat)
    requires forall r :: r in more ==> r.currency == base
    ensures PreviewLines(chart, rows + more, date, base, rates, cap) == PreviewLines(chart, rows, date, base, rates, cap)
  {
    hide TotalsOf, AccountLines, OwnRows;
    if chart != [] {
      var last := chart[|chart| - 1];
      PreviewIgnoresBase(chart[..|chart| - 1], rows, more, date, base, rates, cap);
      OwnRowsAppend(rows, more, last.id, date, cap);
      var extra :| OwnRows(rows + more, last.id, date, cap) == OwnRows(rows, last.id, date, cap) + extra
        && forall r :: r in extra ==> r in more;
      TotalsIgnoreBase(OwnRows(rows, last.id, date, cap), extra, base);
    }
  }

  lemma OwnRowsAppend(rows: seq<Row>, more: seq<Row>, account: string, date: int, cap: nat)
    ensures exists extra ::
      && OwnRows(rows + more, account, date, cap) == OwnRows(rows, account, date, cap) + extra
      && forall r :: r in extra ==> r in more
  {
    hide Filter;
    FilterAppend(rows, more, UpTo(account, date));
    var own, later := Filter(rows, UpTo(account, date)), Filter(more, UpTo(account, date));
    var extra := if |own| >= cap then [] else later[..Min(cap - |own|, |later|)];
    assert OwnRows(rows + more, account, date, cap) == OwnRows(rows, account, date, cap) + extra;
  }

  /**
   The preview does not see the revaluations already posted, so a second run at
   the same date and rates proposes and posts the very same adjustments again.
   */
  lemma RerunRepeatsAdjustments(
      b: Books, id: string, again: string, date: int, s: Setup, rates: Rates, cap: nat, account: string)
    requires RunRevaluation(b, id, date, s, rates, cap).1 == MarkedPosted(true)
    requires !HasOrigin(b.rows, FromDocument("FX_REVALUATION", id))
    requires var once := RunRevaluation(b, id, date, s, rates, cap).0;
      && !HasOrigin(once.rows, FromDocument("FX_REVALUATION", again))
      && RunRevaluation(once, again, date, s, rates, cap).1 == MarkedPosted(true)
    ensures var once := RunRevaluation(b, id, date, s, rates, cap).0;
      var twice := RunRevaluation(once, again, date, s, rates, cap).0;
      Sum(twice.rows, RowBaseNetOn(account)) - Sum(once.rows, RowBaseNetOn(account))
        == Sum(once.rows, RowBaseNetOn(account)) - Sum(b.rows, RowBaseNetOn(account))
  {
    hide PreviewLines, EntryLines, PostDocument, DocumentRows, AdjustmentOn, GainLossNet;
    var entry := EntryLines(PreviewLines(b.chart, b.rows, date, s.base, rates, cap), s);
    var doc := RevaluationDocument(id, date, s, entry);
    FirstPostingAppends(b, doc);
    EntryCurrency(id, date, s, entry);
    PreviewIgnoresBase(b.chart, b.rows, DocumentRows(doc), date, s.base, rates, cap);
    RevaluationMoves(b, id, date, s, rates, cap, account, s.base, date);
    RevaluationMoves(RunRevaluation(b, id, date, s, rates, cap).0, again, date, s, rates, cap, account, s.base, date);
  }

  lemma {:induction false} EntryLength(lines: seq<PreviewLine>, s: Setup)
    ensures |EntryLines(lines, s)| >= |lines|
    ensures |lines| == 1 ==> |EntryLines(lines, s)| == if (if lines[0].adjustment > 0 then s.gain else s.loss).Some? then 2 else 1
  {
    if lines != [] {
      EntryLength(lines[..|lines| - 1], s);
      if |lines| == 1 { assert lines[..0] == []; }
    }
  }

  /**
   A revaluation is marked as posted without an entry exactly when its one adjustment lacks
   its gain or loss account. Then, as when there is nothing to revalue or the ledger refuses
   the entry, the books stay as they were.
   */
  lemma MarkedWithoutEntryIff(b: Books, id: string, date: int, s: Setup, rates: Rates, cap: nat)
    ensures var lines := PreviewLines(b.chart, b.rows, date, s.base, rates, cap);
      var (after, outcome) := RunRevaluation(b, id, date, s, rates, cap);
      && (outcome == MarkedPosted(false) <==>
            |lines| == 1 && if lines[0].adjustment > 0 then s.gain.None? else s.loss.None?)
      && (outcome == NothingToRevalue <==> lines == [])
      && (outcome != MarkedPosted(true) ==> after == b)
  {
    hide PreviewLines, PostDocument, EntryLines;
    var lines := PreviewLines(b.chart, b.rows, date, s.base, rates, cap);
    EntryLength(lines, s);
    RefusedUnchanged(b, RevaluationDocument(id, date, s, EntryLines(lines, s)));
  }

  lemma RefusedUnchanged(b: Books, doc: Document)
    ensures PostDocument(b, doc).1.Refused? ==> PostDocument(b, doc).0 == b
  {
  }

  /** One marked as posted with its entry has it in the ledger. */
  lemma PostedEntryIsThere(b: Books, id: string, date: int, s: Setup, rates: Rates, cap: nat)
    requires RunRevaluation(b, id, date, s, rates, cap).1 == MarkedPosted(true)
    ensures HasOrigin(RunRevaluation(b, id, date, s, rates, cap).0.rows, FromDocument("FX_REVALUATION", id))
  {
    hide PreviewLines, EntryLines, ValidateContext, Group;
    var entry := EntryLines(PreviewLines(b.chart, b.rows, date, s.base, rates, cap), s);
    var doc := RevaluationDocument(id, date, s, entry);
    if !HasOrigin(b.rows, FromDocument("FX_REVALUATION", id)) {
      FirstPostingAppends(b, doc);
      PlainDebit(entry);
      SomeRow(doc);
      var row := DocumentRows(doc)[0];
      RowIsConverted(doc, row);
      assert row in RunRevaluation(b, id, date, s, rates, cap).0.rows;
    }
  }

  // ---- A balance longer than one read ----

  const EUROS := Account("euros", Asset, Debit, true, false, false, false)

  /** So many receipts of a hundredth of a euro each, booked at a rate of one. */
  function Receipts(n: nat): seq<Row> {
    seq(n, i => Row("euros", 0, CENT, 0, "EUR", Base.Base(CENT, 0, 1.0), FromJournal(0)))
  }

  /** The euro has doubled. */
  const DOUBLED := Rates((c: string) => 2.0, (c: string) => 1.0)

  lemma ReceiptsRead(n: nat, cap: nat)
    ensures Filter(Receipts(n), UpTo("euros", 0)) == Receipts(n)
    ensures cap <= n ==> OwnRows(Receipts(n), "euros", 0, cap) == Receipts(cap)
  {
    FilterAll(Receipts(n), UpTo("euros", 0));
  }

  lemma {:induction false} ReceiptsTotal(n: nat)
    requires n > 0
    ensures TotalsOf(Receipts(n), "SAR") == [Total("EUR", n * CENT, 1.0)]
    ensures Sum(Receipts(n), ForeignNet("euros", "EUR", 0)) == n * CENT
  {
    var init := Receipts(n)[..n - 1];
    assert init == Receipts(n - 1);
    if n == 1 {
      assert TotalsOf(init, "SAR") == [] && Sum(init, ForeignNet("euros", "EUR", 0)) == 0;
    } else {
      ReceiptsTotal(n - 1);
      assert [Total("EUR", (n - 1) * CENT, 1.0)][..0] == [];
    }
  }

  lemma DoubledLine(balance: int)
    requires balance >= CENT
    ensures AccountLines("euros", [Total("EUR", balance, 1.0)], DOUBLED) == [PreviewLine("euros", "EUR", balance, 1.0, 2.0, balance)]
  {
    var totals := [Total("EUR", balance, 1.0)];
    assert totals[..0] == [] && AccountLines("euros", totals[..0], DOUBLED) == [];
    assert Convert(balance, 2.0) == 2 * balance && Convert(balance, 1.0) == balance;
  }

  /**
   The failing input, for every cap: an account with one row more than the cap is
   revalued as if the last row were not there.
   */
  lemma RowBeyondTheCap(cap: nat)
    requires cap > 0
    ensures PreviewLines([EUROS], Receipts(cap + 1), 0, "SAR", DOUBLED, cap)
         == [PreviewLine("euros", "EUR", cap * CENT, 1.0, 2.0, cap * CENT)]
    ensures Sum(Receipts(cap + 1), ForeignNet("euros", "EUR", 0)) == cap * CENT + CENT
  {
    hide TotalsOf, AccountLines, OwnRows, Receipts;
    var rows := Receipts(cap + 1);
    ReceiptsRead(cap + 1, cap);
    ReceiptsTotal(cap);
    ReceiptsTotal(cap + 1);
    DoubledLine(cap * CENT);
    assert [EUROS][..0] == [] && PreviewLines([EUROS][..0], rows, 0, "SAR", DOUBLED, cap) == [];
  }
}
