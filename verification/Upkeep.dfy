/** Upkeep of the chart and of the periods: what each operation changes, row by row. */
module Upkeep {
  import opened Wrappers
  import opened Sums
  import opened Money
  import opened Accounts
  import opened Ledger
  import opened Books
  import opened FiscalCalendar
  import Text = NumberFormat

  // ---- Accounts ----

  /** Apart from one new account the chart is as it was, in its order. */
  ghost predicate Inserted(chart: seq<Account>, after: seq<Account>, place: nat, a: Account) {
    && place <= |chart| && |after| == |chart| + 1 && after[place] == a
    && (forall i :: 0 <= i < place ==> after[i] == chart[i])
    && forall i :: place <= i < |chart| ==> after[i + 1] == chart[i]
  }

  /**
   A new account is active, on the side on which its type sits, and goes to its place in the
   order of account numbers; a number that is there already changes nothing.
   */
  lemma AccountOpened(s: Books, id: string, typeName: string, header: bool, retained: bool, at: nat)
    ensures var t := OpenAccount(s, id, typeName, header, retained, at);
      var kind := ToCanonicalType(typeName);
      var side := if kind == Asset || kind == Expense || kind == CostOfGoodsSold then Debit else Credit;
      && t == s.(chart := t.chart)
      && ((exists a :: a in s.chart && a.id == id) ==> t == s)
      && ((forall a :: a in s.chart ==> a.id != id) ==>
            Inserted(s.chart, t.chart, if at < |s.chart| then at else |s.chart|, Account(id, kind, side, true, false, header, retained)))
  {
    hide ToCanonicalType;
    if Find(s.chart, id).Some? { assert Find(s.chart, id).value in s.chart; }
  }

  /** The names each type goes by; any other name makes an asset. */
  lemma NamesOfTypes(name: string)
    ensures ToCanonicalType(name) == Liability <==>
      name in {"Liability", "Accounts Payable", "Credit Card", "Other Current Liability", "Long Term Liability"}
    ensures ToCanonicalType(name) == Equity <==> name in {"Equity"}
    ensures ToCanonicalType(name) == Income <==> name in {"Income", "Other Income"}
    ensures ToCanonicalType(name) == Expense <==> name in {"Expense", "Expenses", "Other Expense"}
    ensures ToCanonicalType(name) == CostOfGoodsSold <==> name in {"CostOfGoodsSold", "Cost of Goods Sold"}
  {
  }

  /** Activating, deactivating and deleting touch one field of one account, and nothing else in the books. */
  lemma AccountChanged(s: Books, id: string, active: bool)
    ensures var (t, u) := (Apply(s, ActiveStep(id, active)), Apply(s, DeleteStep(id)));
      var standing := exists r :: r in s.rows && r.account == id;
      && t == s.(chart := t.chart) && |t.chart| == |s.chart|
      && u == s.(chart := u.chart) && |u.chart| == |s.chart|
      && forall i :: 0 <= i < |s.chart| ==>
           var a := s.chart[i];
           && t.chart[i] == (if a.id == id then a.(active := active) else a)
           && u.chart[i] == (if a.id == id && !standing then a.(deleted := true) else a)
  {
  }

  // ---- Periods ----

  /** The computed period is added, open, unless one lies inside it; a bare close closes one period: nothing else changes. */
  lemma PeriodsChanged(s: Books, date: int, fiscalStart: string, p: nat)
    ensures var (t, u, current) := (EnsurePeriod(s, date, fiscalStart), ClosePeriod(s, p), FiscalPeriodForDate(date, fiscalStart));
      && t == (if exists q :: q in s.periods && current.start <= q.start && q.end <= current.end then s
               else s.(periods := s.periods + [Period(current.start, current.end, false)]))
      && u == s.(periods := u.periods) && |u.periods| == |s.periods|
      && forall i :: 0 <= i < |s.periods| ==>
           u.periods[i] == if i == p then Period(s.periods[i].start, s.periods[i].end, true) else s.periods[i]
  {
    hide FiscalPeriodForDate;
  }

  function TwoPlaces(n: nat): string { Text.PadStart(Text.Digits(n), 2) }

  lemma TwoPlacesRead(n: nat)
    requires n <= 99
    ensures var text := TwoPlaces(n); |text| == 2 && IsDigit(text[0]) && IsDigit(text[1]) && TwoDigits(text[0], text[1]) == n
  {
    if n >= 10 { assert Text.Digits(n) == [Text.DigitChar(n / 10), Text.DigitChar(n % 10)]; }
  }

  /** A month and day written as MM-DD are read back as they are; a text of another shape means 1 January. */
  lemma StartRoundTrip(month: nat, day: nat, text: string)
    requires 1 <= month <= 99 && day <= 99
    ensures ParseStart(TwoPlaces(month) + "-" + TwoPlaces(day)) == (month - 1, day)
    ensures |text| != 5 || text[2] != '-' ==> ParseStart(text) == (0, 1)
  {
    hide TwoPlaces;
    TwoPlacesRead(month);
    TwoPlacesRead(day);
  }
}
