/** With one annual fiscal start, the periods of every run are distinct fiscal years. */
module FiscalRuns {
  import opened Wrappers
  import opened Sums
  import opened Accounts
  import opened Ledger
  import opened Posting
  import opened FiscalCalendar
  import opened Books
  import opened BookInvariants
  import opened YearClose
  import opened BookRuns

  /** The period runs from one yearly boundary to just before the next. */
  predicate IsFiscalYear(p: Period, month: int, day: int) {
    var y := YearOf(p.start);
    y >= 100 && p.start == Utc(y, month, day) && p.end == Utc(y + 1, month, day) - 1
  }

  ghost predicate FiscalYears(periods: seq<Period>, month: int, day: int) {
    && (forall p :: p in periods ==> IsFiscalYear(p, month, day))
    && forall i, j :: 0 <= i < j < |periods| ==> periods[i].start != periods[j].start
  }

  /** The company keeps one fiscal start, on a day that every year has. */
  ghost predicate OneFiscalStart(steps: seq<Step>, text: string) {
    && Annual(ParseStart(text).0, ParseStart(text).1)
    && forall step :: step in steps && step.PeriodStep? ==> step.fiscalStart == text && YearOf(step.date) >= 101
  }

  lemma YearPeriod(y: int, month: int, day: int)
    requires Annual(month, day) && y >= 100
    ensures IsFiscalYear(Period(Utc(y, month, day), Utc(y + 1, month, day) - 1, false), month, day)
  {
    hide Utc, DayFromYear, YearOf;
    BoundaryInYear(y, month, day);
  }

  /** A fiscal year that is in no period of the list can join it. */
  lemma AddYear(periods: seq<Period>, added: Period, month: int, day: int)
    requires FiscalYears(periods, month, day) && IsFiscalYear(added, month, day)
    requires !PeriodExists(periods, added.start, added.end)
    ensures FiscalYears(periods + [added], month, day)
  {
    hide Utc, YearOf;
    forall p | p in periods ensures p.start != added.start {
      assert p.start == added.start ==> p.end == added.end;
    }
  }

  /** The bounds of periods are all that matters. */
  lemma SameBounds(periods: seq<Period>, others: seq<Period>, month: int, day: int)
    requires FiscalYears(periods, month, day) && |others| == |periods|
    requires forall i :: 0 <= i < |periods| ==> others[i].start == periods[i].start && others[i].end == periods[i].end
    ensures FiscalYears(others, month, day)
  {
    hide Utc, YearOf;
    forall p | p in others ensures IsFiscalYear(p, month, day) {
      var i :| 0 <= i < |others| && others[i] == p;
      assert periods[i] in periods;
    }
  }

  lemma EnsureYear(s: Books, date: int, text: string)
    requires Annual(ParseStart(text).0, ParseStart(text).1) && YearOf(date) >= 101
    requires FiscalYears(s.periods, ParseStart(text).0, ParseStart(text).1)
    ensures FiscalYears(EnsurePeriod(s, date, text).periods, ParseStart(text).0, ParseStart(text).1)
  {
    hide Annual, ParseStart, FiscalYears, IsFiscalYear, Utc, YearOf;
    var (month, day) := ParseStart(text);
    var t := EnsurePeriod(s, date, text);
    if t != s {
      YearPeriod(StartYear(date, month, day), month, day);
      AddYear(s.periods, t.periods[|s.periods|], month, day);
    }
  }

  lemma NextYearPeriod(p: Period, month: int, day: int)
    requires Annual(month, day) && IsFiscalYear(p, month, day)
    ensures var next := NextFiscalPeriod(p.end); IsFiscalYear(Period(next.start, next.end, false), month, day)
  {
    hide Annual, Utc, YearOf, NextFiscalPeriod;
    var y := YearOf(p.start);
    NextFrom(y, month, day);
    YearPeriod(y + 1, month, day);
  }

  lemma CloseYears(s: Books, p: nat, currency: string, month: int, day: int)
    requires Annual(month, day) && FiscalYears(s.periods, month, day)
    ensures FiscalYears(CloseYear(s, p, currency).0.periods, month, day)
  {
    hide Annual, IsFiscalYear, PostClosing, NextFiscalPeriod, OpeningLines, PeriodBalances, NewDraft, ClosedOn;
    if CloseRefusal(s, p).None? {
      PostClosingRows(s, s.periods[p], FindRetained(s.chart).value.id, currency);
      var next := NextFiscalPeriod(s.periods[p].end);
      if !PeriodExists(s.periods, next.start, next.end) {
        NextYearPeriod(s.periods[p], month, day);
        var closed := s.periods[p := s.periods[p].(closed := true)];
        SameBounds(s.periods, closed, month, day);
        StillMissing(s.periods, p, next.start, next.end);
        AddYear(closed, Period(next.start, next.end, false), month, day);
      }
    }
  }

  lemma StillMissing(periods: seq<Period>, p: nat, start: int, end: int)
    requires p < |periods| && !PeriodExists(periods, start, end)
    ensures !PeriodExists(periods[p := periods[p].(closed := true)], start, end)
  {
    assert periods[p] in periods;
  }

  lemma ApplyYears(s: Books, step: Step, text: string)
    requires OneFiscalStart([step], text) && FiscalYears(s.periods, ParseStart(text).0, ParseStart(text).1)
    ensures FiscalYears(Apply(s, step).periods, ParseStart(text).0, ParseStart(text).1)
  {
    hide PostDocument, PostJournal, Reverse, DraftAndPost, CloseYear, EnsurePeriod, ValidateContext, FiscalYears, Annual, ParseStart, YearOf;
    var (month, day) := ParseStart(text);
    assert step in [step];
    match step
    case DocumentStep(doc) => DocumentFrame(s, doc);
    case PostStep(id) => PostFrame(s, id);
    case ReverseStep(id, date) => ReverseGrows(s, id, date);
    case AdjustStep(id, date, lines, autoPost) =>
      if id < |s.journals| {
        DraftAndPostGrows(s, NewDraft(Adjusting, date, s.journals[id].currency, lines, Some(id)));
      }
    case CloseStep(p, currency) => CloseYears(s, p, currency, month, day);
    case PeriodStep(date, fiscalStart) => EnsureYear(s, date, text);
    case BareCloseStep(p) => SameBounds(s.periods, ClosePeriod(s, p).periods, month, day);
    case _ =>
  }

  lemma {:induction false} RunYears(s: Books, steps: seq<Step>, text: string)
    requires OneFiscalStart(steps, text) && FiscalYears(s.periods, ParseStart(text).0, ParseStart(text).1)
    ensures FiscalYears(Run(s, steps).periods, ParseStart(text).0, ParseStart(text).1)
  {
    hide Apply, FiscalYears, Annual, ParseStart, YearOf;
    if steps != [] {
      var init, last := steps[..|steps| - 1], steps[|steps| - 1];
      assert last in steps && forall step :: step in init ==> step in steps;
      RunYears(s, init, text);
      ApplyYears(Run(s, init), last, text);
    }
  }

  /** Two different fiscal years have no instant in common. */
  lemma YearsApartFrom(p: Period, q: Period, month: int, day: int, date: int)
    requires Annual(month, day) && IsFiscalYear(p, month, day) && IsFiscalYear(q, month, day)
    requires Within(Span(p), date) && Within(Span(q), date)
    ensures p.start == q.start
  {
    hide Utc, DayFromYear;
    StartYearIs(date, YearOf(p.start), month, day);
    StartYearIs(date, YearOf(q.start), month, day);
  }
}
