/**
 The accounting tables of one company and the operations that change them:
 posting source documents, drafting and posting journals, reversing and
 adjusting them, closing fiscal years, and upkeep of periods and accounts.
 Each operation is a function from tables to tables and an outcome; module
 LedgerService holds the methods that update the tables in place.
 */
module Books {
  import opened Wrappers
  import opened Sums
  import opened Money
  import opened Accounts
  import opened Ledger
  import opened Posting
  import opened FiscalCalendar

  datatype EntryType = Standard | Reversing | Adjusting | Closing | Opening
  datatype Status = Draft | Posted

  /** `source` is the journal this one reverses, adjusts or copies. */
  datatype Journal = Journal(
    kind: EntryType, date: int, currency: string, lines: seq<Line>, totalDebit: int, totalCredit: int,
    status: Status, source: Option<nat>, reversedBy: Option<nat>)

  datatype Period = Period(start: int, end: int, closed: bool)

  datatype YearClosing = YearClosing(fiscalYear: int, period: nat, netIncome: int, closing: nat, opening: nat)

  /** Journals and periods are identified by their position. */
  datatype Books = Books(
    chart: seq<Account>, rows: seq<Row>, journals: seq<Journal>, periods: seq<Period>, closings: seq<YearClosing>)

  datatype Outcome = Done(id: nat) | Reused | Refused(why: Refusal)

  function Span(p: Period): Window { Window(Some(p.start), Some(p.end)) }

  // ---- Validation ----

  predicate ClosedOn(periods: seq<Period>, date: int) {
    exists p :: p in periods && p.closed && Within(Span(p), date)
  }

  predicate Known(chart: seq<Account>, id: string) {
    Find(chart, id).Some? && !Find(chart, id).value.deleted
  }
  predicate Usable(chart: seq<Account>, id: string) {
    Known(chart, id) && Find(chart, id).value.active
  }

  function ValidateContext(s: Books, date: int, lines: seq<Line>): Option<Refusal> {
    var unbalanced := ValidateBalanced(lines);
    if unbalanced.Some? then unbalanced
    else if ClosedOn(s.periods, date) then Some(PeriodClosed)
    else if exists l :: l in lines && !Known(s.chart, l.account) then Some(AccountNotFound)
    else if exists l :: l in lines && !Usable(s.chart, l.account) then Some(AccountInactive)
    else None
  }

  // ---- Source documents ----

  function HasOrigin(rows: seq<Row>, origin: Origin): bool {
    exists r :: r in rows && r.origin == origin
  }

  /** The CHECK constraints of the ledger table. */
  predicate RowAllowed(r: Row) {
    r.debit >= 0 && r.credit >= 0 && (r.debit == 0 || r.credit == 0)
  }

  function PostDocument(s: Books, doc: Document): (Books, Outcome) {
    var refusal := ValidateContext(s, doc.date, Plain(doc.lines));
    var rows := DocumentRows(doc);
    if refusal.Some? then (s, Refused(refusal.value))
    else if HasOrigin(s.rows, FromDocument(doc.kind, doc.id)) then (s, Reused)
    else if rows == [] then (s, Done(|s.rows|))
    else if exists r :: r in rows && !RowAllowed(r) then (s, Refused(ConstraintViolated))
    else (s.(rows := s.rows + rows), Done(|s.rows|))
  }

  /** A first posting that is not refused appends the document's rows; only debits in all above zero get that far. */
  lemma FirstPostingAppends(s: Books, doc: Document)
    requires !HasOrigin(s.rows, FromDocument(doc.kind, doc.id)) && !PostDocument(s, doc).1.Refused?
    ensures PostDocument(s, doc) == (s.(rows := s.rows + DocumentRows(doc)), Done(|s.rows|))
    ensures Sum(Plain(doc.lines), LineDebit()) > 0
  {
    hide DocumentRows, Plain;
    assert s.rows + [] == s.rows;
  }

  // ---- Journals ----

  predicate LineAllowed(l: Line) { l.debit >= 0 && l.credit >= 0 }

  function NewDraft(kind: EntryType, date: int, currency: string, lines: seq<Line>, source: Option<nat>): Journal {
    Journal(kind, date, currency, lines, Sum(lines, LineDebit()), Sum(lines, LineCredit()), Draft, source, None)
  }

  /** The header goes in first; refused lines leave it behind without any. */
  function CreateDraft(s: Books, draft: Journal): (Books, Outcome) {
    if draft.totalDebit < 0 || draft.totalCredit < 0 then (s, Refused(ConstraintViolated))
    else if exists l :: l in draft.lines && !LineAllowed(l)
      then (s.(journals := s.journals + [draft.(lines := [])]), Refused(ConstraintViolated))
    else (s.(journals := s.journals + [draft]), Done(|s.journals|))
  }

  function JournalRow(id: nat, j: Journal): Line -> Row {
    (l: Line) => Row(l.account, j.date, l.debit, l.credit, j.currency, NoBase, FromJournal(id))
  }

  function JournalRows(id: nat, j: Journal): seq<Row> { Map(j.lines, JournalRow(id, j)) }

  predicate LinePostable(chart: seq<Account>, l: Line) {
    Usable(chart, l.account) && !(l.debit > 0 && l.credit > 0) && !(l.debit == 0 && l.credit == 0)
  }

  /** No two lines are the same. */
  predicate Distinct(lines: seq<Line>) { forall i, j :: 0 <= i < j < |lines| ==> lines[i] != lines[j] }

  /**
   The database function inserts the lines one by one. It refuses a line that may not be
   posted, and the unique index over ledger rows refuses a second one with the same
   account and amounts; either way none is inserted.
   */
  predicate Insertable(chart: seq<Account>, lines: seq<Line>) {
    Distinct(lines) && forall l :: l in lines ==> LinePostable(chart, l)
  }

  /** The service's checks, then those of the database function it calls. */
  function PostingRefusal(s: Books, id: nat): Option<Refusal> {
    if id >= |s.journals| then Some(NotFound)
    else
      var j := s.journals[id];
      if HasOrigin(s.rows, FromJournal(id)) then Some(Duplicate)
      else
        var refusal := ValidateContext(s, j.date, j.lines);
        if refusal.Some? then refusal
        else if j.status.Posted? then Some(AlreadyPosted)
        else if j.totalDebit != j.totalCredit then Some(Unbalanced)
        else if j.totalDebit <= 0 then Some(ZeroAmount)
        else if !Insertable(s.chart, j.lines) then Some(InvalidLine)
        else None
  }

  function PostJournal(s: Books, id: nat): (Books, Outcome) {
    var refusal := PostingRefusal(s, id);
    if refusal.Some? then (s, Refused(refusal.value))
    else
      var j := s.journals[id];
      (s.(rows := s.rows + JournalRows(id, j), journals := s.journals[id := j.(status := Posted)]), Done(id))
  }

  /**
   What posting a journal leaves: its lines as rows in their order, each with the journal's
   date and currency, no base amounts and the journal as origin; its status; and nothing else.
   */
  lemma PostedRowsAre(s: Books, id: nat)
    requires PostJournal(s, id).1.Done?
    ensures id < |s.journals|
    ensures var (t, j) := (PostJournal(s, id).0, s.journals[id]);
      && t == s.(rows := t.rows, journals := s.journals[id := j.(status := Posted)])
      && |t.rows| == |s.rows| + |j.lines| && t.rows[..|s.rows|] == s.rows
      && forall i :: 0 <= i < |j.lines| ==>
           t.rows[|s.rows| + i]
           == Row(j.lines[i].account, j.date, j.lines[i].debit, j.lines[i].credit, j.currency, NoBase, FromJournal(id))
  {
    hide ValidateContext, HasOrigin, Insertable;
  }

  function DraftAndPost(s: Books, draft: Journal): (Books, Outcome) {
    var (drafted, outcome) := CreateDraft(s, draft);
    if outcome.Refused? then (drafted, outcome) else PostJournal(drafted, |s.journals|)
  }

  // ---- Reversal and adjustment ----

  function SwapLine(): Line -> Line { (l: Line) => Line(l.account, l.credit, l.debit) }
  function Swapped(lines: seq<Line>): seq<Line> { Map(lines, SwapLine()) }

  predicate Reverses(j: Journal, id: nat) { j.kind == Reversing && j.source == Some(id) }

  predicate AlreadyReversedIn(journals: seq<Journal>, id: nat) {
    exists j :: j in journals && Reverses(j, id) && !j.status.Draft?
  }

  function Reverse(s: Books, id: nat, date: int): (Books, Outcome) {
    if id >= |s.journals| then (s, Refused(NotFound))
    else
      var source := s.journals[id];
      if !source.status.Posted? then (s, Refused(NotPosted))
      else if AlreadyReversedIn(s.journals, id) then (s, Refused(AlreadyReversed))
      else
        var lines := Swapped(source.lines);
        var refusal := ValidateContext(s, date, lines);
        if refusal.Some? then (s, Refused(refusal.value))
        else
          var (posted, outcome) := DraftAndPost(s, NewDraft(Reversing, date, source.currency, lines, Some(id)));
          if outcome.Refused? || id >= |posted.journals| then (posted, outcome)
          else
            var linked := posted.journals[id].(reversedBy := Some(|s.journals|));
            (posted.(journals := posted.journals[id := linked]), outcome)
  }

  function Adjust(s: Books, id: nat, date: int, lines: seq<Line>, autoPost: bool): (Books, Outcome) {
    if id >= |s.journals| then (s, Refused(NotFound))
    else
      var source := s.journals[id];
      if !source.status.Posted? then (s, Refused(NotPosted))
      else
        var refusal := ValidateContext(s, date, lines);
        var draft := NewDraft(Adjusting, date, source.currency, lines, Some(id));
        if refusal.Some? then (s, Refused(refusal.value))
        else if autoPost then DraftAndPost(s, draft)
        else CreateDraft(s, draft)
  }

  // ---- Year close ----

  function IncomeWeight(): AccountBalance -> int {
    (b: AccountBalance) => if b.account.kind.Income? then b.balance else 0
  }
  function ExpenseWeight(): AccountBalance -> int {
    (b: AccountBalance) => if b.account.kind.Income? then 0 else b.balance
  }

  function NetIncome(balances: seq<AccountBalance>): int {
    Sum(balances, IncomeWeight()) - Sum(balances, ExpenseWeight())
  }

  function HasBalance(): AccountBalance -> bool { (b: AccountBalance) => b.balance != 0 }

  function ToClosingLine(): AccountBalance -> Line {
    (b: AccountBalance) =>
      if b.account.kind.Income? then Line(b.account.id, b.balance, 0) else Line(b.account.id, 0, b.balance)
  }

  /** Net income of at most one ten-thousandth gets no retained-earnings line. */
  function RetainedLines(netIncome: int, retained: string): seq<Line> {
    if netIncome > 1 then [Line(retained, 0, netIncome)]
    else if netIncome < -1 then [Line(retained, -netIncome, 0)]
    else []
  }

  function ClosingLines(balances: seq<AccountBalance>, retained: string): seq<Line> {
    Map(Filter(balances, HasBalance()), ToClosingLine()) + RetainedLines(NetIncome(balances), retained)
  }

  function Shown(): AccountBalance -> bool { (b: AccountBalance) => Abs(b.balance) > 1 }

  function ToOpeningLine(): AccountBalance -> Line {
    (b: AccountBalance) =>
      if b.account.normal.Debit? then Line(b.account.id, Abs(b.balance), 0) else Line(b.account.id, 0, Abs(b.balance))
  }

  /** The first usable equity account named Retained Earnings, in the order of account numbers. */
  function FindRetained(chart: seq<Account>): (found: Option<Account>)
    ensures found.Some? ==> found.value in chart && found.value.kind.Equity? && found.value.active && !found.value.deleted
  {
    if chart == [] then None
    else
      var last := chart[|chart| - 1];
      assert chart == chart[..|chart| - 1] + [last];
      var earlier := FindRetained(chart[..|chart| - 1]);
      if earlier.Some? then earlier
      else if last.retained && last.kind.Equity? && last.active && !last.deleted then Some(last)
      else None
  }

  predicate YearRecorded(closings: seq<YearClosing>, year: int) {
    exists c :: c in closings && c.fiscalYear == year
  }

  predicate PeriodExists(periods: seq<Period>, start: int, end: int) {
    exists q :: q in periods && q.start == start && q.end == end
  }

  function CloseRefusal(s: Books, p: nat): (refusal: Option<Refusal>)
    ensures refusal.None? ==> p < |s.periods| && !s.periods[p].closed && FindRetained(s.chart).Some?
  {
    if p >= |s.periods| then Some(NotFound)
    else
      var period := s.periods[p];
      if period.closed || YearRecorded(s.closings, YearOf(period.end)) then Some(AlreadyClosed)
      else if ClosedOn(s.periods, period.end) then Some(PeriodClosed)
      else if FindRetained(s.chart).None? then Some(NoRetainedEarnings)
      else None
  }

  function PeriodBalances(s: Books, period: Period): seq<AccountBalance> {
    Aggregate(s.chart, s.rows, Span(period), ProfitAndLossKinds)
  }

  function OpeningLines(s: Books, date: int): seq<Line> {
    Map(Filter(Aggregate(s.chart, s.rows, AsOf(date), PermanentKinds), Shown()), ToOpeningLine())
  }

  /** The closing journal, posted unless there is nothing to close. */
  function PostClosing(s: Books, period: Period, retained: string, currency: string): (Books, Outcome) {
    var lines := ClosingLines(PeriodBalances(s, period), retained);
    var draft := NewDraft(Closing, period.end, currency, lines, None);
    if draft.totalDebit < 0 || draft.totalCredit < 0 then (s, Refused(ConstraintViolated))
    else
      // An error inserting the lines goes unnoticed; posting then finds no lines.
      var drafted := CreateDraft(s, draft).0;
      if lines == [] then (drafted, Done(|s.journals|)) else PostJournal(drafted, |s.journals|)
  }

  /** The next period, the unposted opening memorandum, and the close itself. */
  function CarryForward(s: Books, p: nat, currency: string, netIncome: int, closing: nat): (Books, Outcome)
    requires p < |s.periods|
  {
    var period := s.periods[p];
    var next := NextFiscalPeriod(period.end);
    var memo := NewDraft(Opening, next.start, currency, OpeningLines(s, period.end), None);
    if PeriodExists(s.periods, next.start, next.end) then (s, Refused(ConstraintViolated))
    else
      (s.(journals := s.journals + [memo],
          periods := s.periods[p := period.(closed := true)] + [Period(next.start, next.end, false)],
          closings := s.closings + [YearClosing(YearOf(period.end), p, netIncome, closing, |s.journals|)]),
       Done(|s.periods|))
  }

  function CloseYear(s: Books, p: nat, currency: string): (Books, Outcome) {
    var refusal := CloseRefusal(s, p);
    if refusal.Some? then (s, Refused(refusal.value))
    else
      var period := s.periods[p];
      var (posted, outcome) := PostClosing(s, period, FindRetained(s.chart).value.id, currency);
      if outcome.Refused? || p >= |posted.periods| then (posted, outcome)
      else CarryForward(posted, p, currency, NetIncome(PeriodBalances(s, period)), |s.journals|)
  }

  // ---- Upkeep ----

  /** ensureCurrentFiscalPeriod: no new period when one already lies inside the computed bounds. */
  function EnsurePeriod(s: Books, date: int, fiscalStart: string): Books {
    var current := FiscalPeriodForDate(date, fiscalStart);
    if exists q :: q in s.periods && current.start <= q.start && q.end <= current.end then s
    else s.(periods := s.periods + [Period(current.start, current.end, false)])
  }

  /** The chart is kept in the order of account numbers; `at` is where the number of the new account falls. */
  function OpenAccount(s: Books, id: string, typeName: string, header: bool, retained: bool, at: nat): Books {
    var c := ResolveClassification(typeName);
    var place := Min(at, |s.chart|);
    if Find(s.chart, id).Some? then s
    else s.(chart := s.chart[..place] + [Account(id, c.kind, c.normal, true, false, header, retained)] + s.chart[place..])
  }

  function SetActive(id: string, active: bool): Account -> Account {
    (a: Account) => if a.id == id then a.(active := active) else a
  }
  function SoftDelete(id: string): Account -> Account {
    (a: Account) => if a.id == id then a.(deleted := true) else a
  }

  predicate HasRows(rows: seq<Row>, account: string) {
    exists r :: r in rows && r.account == account
  }

  /** An account with a row in the ledger is not deleted. */
  function DeleteAccount(s: Books, id: string): Books {
    if HasRows(s.rows, id) then s else s.(chart := Map(s.chart, SoftDelete(id)))
  }

  /** closeFiscalPeriod: the status alone, with no check, no journal and no record of a close. */
  function ClosePeriod(s: Books, p: nat): Books {
    if p < |s.periods| then s.(periods := s.periods[p := s.periods[p].(closed := true)]) else s
  }

  // ---- Runs ----

  datatype Step =
    | DocumentStep(doc: Document)
    | DraftStep(date: int, currency: string, lines: seq<Line>, source: Option<nat>)
    | PostStep(id: nat)
    | ReverseStep(id: nat, date: int)
    | AdjustStep(id: nat, date: int, lines: seq<Line>, autoPost: bool)
    | CloseStep(period: nat, currency: string)
    | PeriodStep(date: int, fiscalStart: string)
    | AccountStep(account: string, typeName: string, header: bool, retained: bool, at: nat)
    | ActiveStep(account: string, active: bool)
    | DeleteStep(account: string)
    | BareCloseStep(period: nat)

  /** A refused step keeps whatever its operation wrote before it gave up. */
  function Apply(s: Books, step: Step): Books {
    match step
    case DocumentStep(doc) => PostDocument(s, doc).0
    case DraftStep(date, currency, lines, source) =>
      var known := if source.Some? && source.value < |s.journals| then source else None;
      CreateDraft(s, NewDraft(Standard, date, currency, lines, known)).0
    case PostStep(id) => PostJournal(s, id).0
    case ReverseStep(id, date) => Reverse(s, id, date).0
    case AdjustStep(id, date, lines, autoPost) => Adjust(s, id, date, lines, autoPost).0
    case CloseStep(p, currency) => CloseYear(s, p, currency).0
    case PeriodStep(date, fiscalStart) => EnsurePeriod(s, date, fiscalStart)
    case AccountStep(id, typeName, header, retained, at) => OpenAccount(s, id, typeName, header, retained, at)
    case ActiveStep(id, active) => s.(chart := Map(s.chart, SetActive(id, active)))
    case DeleteStep(id) => DeleteAccount(s, id)
    case BareCloseStep(p) => ClosePeriod(s, p)
  }

  function Run(s: Books, steps: seq<Step>): Books {
    if steps == [] then s else Apply(Run(s, steps[..|steps| - 1]), steps[|steps| - 1])
  }
}
