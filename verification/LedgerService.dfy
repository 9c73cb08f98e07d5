/**
 The accounting tables as they are updated in place. Each method writes table
 by table, in the order the accounting services do, and is proved to take the tables to the state
 its function in module Books gives, so every law of the runs applies to them.
 */
module LedgerService {
  import opened Wrappers
  import opened Sums
  import opened Money
  import opened Accounts
  import opened Ledger
  import opened Posting
  import opened FiscalCalendar
  import opened Books
  import opened YearClose

  class LedgerTables {
    var chart: seq<Account>
    var rows: seq<Row>
    var journals: seq<Journal>
    var periods: seq<Period>
    var closings: seq<YearClosing>

    constructor ()
      ensures State() == Books([], [], [], [], [])
    {
      chart, rows, journals, periods, closings := [], [], [], [], [];
    }

    function State(): Books reads this { Books(chart, rows, journals, periods, closings) }

    method PostSourceDocument(doc: Document) returns (outcome: Outcome)
      modifies this`rows
      ensures (State(), outcome) == PostDocument(old(State()), doc)
    {
      var refusal := ValidateContext(State(), doc.date, Plain(doc.lines));
      if refusal.Some? { return Refused(refusal.value); }
      if HasOrigin(rows, FromDocument(doc.kind, doc.id)) { return Reused; }
      var more := BuildRows(doc);
      if more == [] { return Done(|rows|); }
      if exists r :: r in more && !RowAllowed(r) { return Refused(ConstraintViolated); }
      outcome := Done(|rows|);
      rows := rows + more;
    }

    /** Inserts the header, then the lines; a refused insert of lines leaves the header. */
    method CreateJournalDraft(kind: EntryType, date: int, currency: string, lines: seq<Line>, source: Option<nat>)
      returns (outcome: Outcome)
      modifies this`journals
      ensures (State(), outcome) == CreateDraft(old(State()), NewDraft(kind, date, currency, lines, source))
    {
      var totalDebit, totalCredit := 0, 0;
      for i := 0 to |lines|
        invariant totalDebit == Sum(lines[..i], LineDebit()) && totalCredit == Sum(lines[..i], LineCredit())
        invariant State() == old(State())
      {
        SumPrefixStep(lines, i, LineDebit());
        SumPrefixStep(lines, i, LineCredit());
        totalDebit, totalCredit := totalDebit + lines[i].debit, totalCredit + lines[i].credit;
      }
      assert lines[..|lines|] == lines;
      if totalDebit < 0 || totalCredit < 0 { return Refused(ConstraintViolated); }
      var id := |journals|;
      var header := Journal(kind, date, currency, [], totalDebit, totalCredit, Draft, source, None);
      journals := journals + [header];
      if exists l :: l in lines && !LineAllowed(l) { return Refused(ConstraintViolated); }
      journals := journals[id := header.(lines := lines)];
      assert journals == old(journals) + [NewDraft(kind, date, currency, lines, source)];
      outcome := Done(id);
    }

    /**
     The loop of the database function: one ledger row for each journal line, or none at
     all. The unique index stops it at a line equal to an earlier one.
     */
    method PostJournalEntry(id: nat) returns (outcome: Outcome)
      modifies this`rows, this`journals
      ensures (State(), outcome) == PostJournal(old(State()), id)
    {
      hide ValidateContext, HasOrigin, LinePostable, Insertable;
      if id >= |journals| { return Refused(NotFound); }
      var j := journals[id];
      if HasOrigin(rows, FromJournal(id)) { return Refused(Duplicate); }
      var refusal := ValidateContext(State(), j.date, j.lines);
      if refusal.Some? { return Refused(refusal.value); }
      if j.status.Posted? { return Refused(AlreadyPosted); }
      if j.totalDebit != j.totalCredit { return Refused(Unbalanced); }
      if j.totalDebit <= 0 { return Refused(ZeroAmount); }
      var more := [];
      NothingInsertable(chart);
      for i := 0 to |j.lines|
        invariant more == Map(j.lines[..i], JournalRow(id, j))
        invariant Insertable(chart, j.lines[..i]) && State() == old(State())
      {
        var l := j.lines[i];
        assert j.lines[..i + 1][..i] == j.lines[..i] && j.lines[..i + 1] == j.lines[..i] + [l];
        if !LinePostable(chart, l) || l in j.lines[..i] {
          NotInsertable(chart, j.lines, i);
          return Refused(InvalidLine);
        }
        InsertableStep(chart, j.lines[..i], l);
        more := more + [Row(l.account, j.date, l.debit, l.credit, j.currency, NoBase, FromJournal(id))];
      }
      assert j.lines[..|j.lines|] == j.lines;
      rows := rows + more;
      journals := journals[id := j.(status := Posted)];
      outcome := Done(id);
    }

    method ReverseJournalEntry(id: nat, date: int) returns (outcome: Outcome)
      modifies this`rows, this`journals
      ensures (State(), outcome) == Reverse(old(State()), id, date)
    {
      hide PostJournal, CreateDraft, ValidateContext;
      if id >= |journals| { return Refused(NotFound); }
      var source := journals[id];
      if !source.status.Posted? { return Refused(NotPosted); }
      if AlreadyReversedIn(journals, id) { return Refused(AlreadyReversed); }
      var lines := Swapped(source.lines);
      var refusal := ValidateContext(State(), date, lines);
      if refusal.Some? { return Refused(refusal.value); }
      var reversal := |journals|;
      outcome := CreateJournalDraft(Reversing, date, source.currency, lines, Some(id));
      if outcome.Refused? { return; }
      outcome := PostJournalEntry(reversal);
      if outcome.Refused? || id >= |journals| { return; }
      journals := journals[id := journals[id].(reversedBy := Some(reversal))];
    }

    method CreateAdjustingJournalEntry(id: nat, date: int, lines: seq<Line>, autoPost: bool) returns (outcome: Outcome)
      modifies this`rows, this`journals
      ensures (State(), outcome) == Adjust(old(State()), id, date, lines, autoPost)
    {
      hide PostJournal, CreateDraft, ValidateContext;
      if id >= |journals| { return Refused(NotFound); }
      var source := journals[id];
      if !source.status.Posted? { return Refused(NotPosted); }
      var refusal := ValidateContext(State(), date, lines);
      if refusal.Some? { return Refused(refusal.value); }
      var adjustment := |journals|;
      outcome := CreateJournalDraft(Adjusting, date, source.currency, lines, Some(id));
      if outcome.Refused? || !autoPost { return; }
      outcome := PostJournalEntry(adjustment);
    }

    /** The running totals and the closing lines of the year close, balance by balance. */
    static method BuildClosingLines(balances: seq<AccountBalance>, retained: string)
      returns (lines: seq<Line>, netIncome: int)
      ensures lines == ClosingLines(balances, retained) && netIncome == NetIncome(balances)
    {
      var totalIncome, totalExpense := 0, 0;
      for i := 0 to |balances|
        invariant totalIncome == Sum(balances[..i], IncomeWeight()) && totalExpense == Sum(balances[..i], ExpenseWeight())
      {
        SumPrefixStep(balances, i, IncomeWeight());
        SumPrefixStep(balances, i, ExpenseWeight());
        if balances[i].account.kind.Income? {
          totalIncome := totalIncome + balances[i].balance;
        } else {
          totalExpense := totalExpense + balances[i].balance;
        }
      }
      assert balances[..|balances|] == balances;
      netIncome := totalIncome - totalExpense;
      lines := [];
      for i := 0 to |balances|
        invariant lines == AccountClosing(balances[..i])
      {
        AccountClosingStep(balances, i);
        var b := balances[i];
        if b.balance != 0 {
          if b.account.kind.Income? {
            lines := lines + [Line(b.account.id, b.balance, 0)];
          } else {
            lines := lines + [Line(b.account.id, 0, b.balance)];
          }
        }
      }
      if Abs(netIncome) > 1 {
        if netIncome > 0 {
          lines := lines + [Line(retained, 0, netIncome)];
        } else {
          lines := lines + [Line(retained, -netIncome, 0)];
        }
      }
    }

    method CloseFiscalYear(p: nat, currency: string) returns (outcome: Outcome)
      modifies this
      ensures (State(), outcome) == CloseYear(old(State()), p, currency)
    {
      hide PostJournal, CreateDraft, ClosingLines, NetIncome, CarryForward, PeriodBalances, ClosedOn;
      var refusal := CloseRefusal(State(), p);
      if refusal.Some? { return Refused(refusal.value); }
      var period := periods[p];
      var retained := FindRetained(chart).value;
      var balances := PeriodBalances(State(), period);
      var lines, netIncome := BuildClosingLines(balances, retained.id);
      ghost var before := State();
      var closing := |journals|;
      outcome := CreateJournalDraft(Closing, period.end, currency, lines, None);
      DraftOutcome(before, NewDraft(Closing, period.end, currency, lines, None));
      if |journals| == closing { return; }
      if lines != [] {
        outcome := PostJournalEntry(closing);
        PostOutcome(CreateDraft(before, NewDraft(Closing, period.end, currency, lines, None)).0, closing);
        if outcome.Refused? { return; }
      }
      outcome := OpenNextPeriod(p, currency, netIncome, closing);
    }

    /** The opening memorandum, the next period, the close itself and its record. */
    method OpenNextPeriod(p: nat, currency: string, netIncome: int, closing: nat) returns (outcome: Outcome)
      requires p < |periods|
      modifies this`periods, this`journals, this`closings
      ensures (State(), outcome) == CarryForward(old(State()), p, currency, netIncome, closing)
    {
      hide OpeningLines, NextFiscalPeriod;
      var period := periods[p];
      var next := NextFiscalPeriod(period.end);
      if PeriodExists(periods, next.start, next.end) { return Refused(ConstraintViolated); }
      var memo := NewDraft(Opening, next.start, currency, OpeningLines(State(), period.end), None);
      outcome := Done(|periods|);
      periods := periods + [Period(next.start, next.end, false)];
      journals := journals + [memo];
      periods := periods[p := period.(closed := true)];
      closings := closings + [YearClosing(YearOf(period.end), p, netIncome, closing, |journals| - 1)];
      assert periods == old(periods)[p := period.(closed := true)] + [Period(next.start, next.end, false)];
    }

    method EnsureCurrentFiscalPeriod(date: int, fiscalStart: string)
      modifies this`periods
      ensures State() == EnsurePeriod(old(State()), date, fiscalStart)
    {
      var current := FiscalPeriodForDate(date, fiscalStart);
      if exists q :: q in periods && current.start <= q.start && q.end <= current.end { return; }
      periods := periods + [Period(current.start, current.end, false)];
    }

    /** The bare close: the status of the period and nothing else. */
    method CloseFiscalPeriod(p: nat) returns (outcome: Outcome)
      modifies this`periods
      ensures State() == ClosePeriod(old(State()), p)
      ensures outcome == if p < |old(periods)| then Done(p) else Refused(NotFound)
    {
      if p >= |periods| { return Refused(NotFound); }
      periods := periods[p := periods[p].(closed := true)];
      outcome := Done(p);
    }

    /** Deletes an account softly, unless a ledger row stands on it. */
    method DeleteLedgerAccount(id: string) returns (deletable: bool)
      modifies this`chart
      ensures State() == DeleteAccount(old(State()), id)
      ensures deletable <==> forall r :: r in rows ==> r.account != id
    {
      deletable := forall r :: r in rows ==> r.account != id;
      if deletable { chart := Map(chart, SoftDelete(id)); }
    }
  }

  lemma AccountClosingStep(balances: seq<AccountBalance>, i: nat)
    requires i < |balances|
    ensures AccountClosing(balances[..i + 1])
         == AccountClosing(balances[..i]) + if balances[i].balance != 0 then [ToClosingLine()(balances[i])] else []
  {
    assert balances[..i + 1][..i] == balances[..i];
    var kept := Filter(balances[..i], HasBalance());
    if balances[i].balance != 0 {
      assert (kept + [balances[i]])[..|kept|] == kept;
    }
  }

  /** What creating a draft leaves behind, whether or not its lines were accepted. */
  lemma DraftOutcome(s: Books, draft: Journal)
    ensures var (t, outcome) := CreateDraft(s, draft);
      && t.periods == s.periods && t.closings == s.closings && t.chart == s.chart && t.rows == s.rows
      && ((draft.totalDebit < 0 || draft.totalCredit < 0) ==> t == s && outcome == Refused(ConstraintViolated))
      && (!(draft.totalDebit < 0 || draft.totalCredit < 0) ==> |t.journals| == |s.journals| + 1)
      && (draft.lines == [] && !(draft.totalDebit < 0 || draft.totalCredit < 0) ==> outcome == Done(|s.journals|))
  {
  }

  lemma NothingInsertable(chart: seq<Account>)
    ensures Insertable(chart, [])
  {
  }

  lemma NotInsertable(chart: seq<Account>, lines: seq<Line>, i: nat)
    requires i < |lines| && (!LinePostable(chart, lines[i]) || lines[i] in lines[..i])
    ensures !Insertable(chart, lines)
  {
    hide LinePostable;
  }

  lemma InsertableStep(chart: seq<Account>, lines: seq<Line>, l: Line)
    requires Insertable(chart, lines) && LinePostable(chart, l) && l !in lines
    ensures Insertable(chart, lines + [l])
  {
    hide LinePostable;
  }

  lemma PostOutcome(s: Books, id: nat)
    ensures var (t, outcome) := PostJournal(s, id);
      t.periods == s.periods && t.closings == s.closings && t.chart == s.chart && |t.journals| == |s.journals|
  {
  }
}
