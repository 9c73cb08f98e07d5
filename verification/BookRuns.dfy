/** Safety of the books over every run of operations. */
module BookRuns {
  import opened Wrappers
  import opened Sums
  import opened Money
  import opened Accounts
  import opened Ledger
  import opened Posting
  import opened FiscalCalendar
  import opened Reports
  import opened Books
  import opened BookInvariants
  import opened YearClose
  import opened CloseEffect

  const EMPTY := Books([], [], [], [], [])

  lemma EmptyOk()
    ensures Inv(EMPTY)
  {
  }

  // ---- The invariant over runs ----

  lemma MappedChart(chart: seq<Account>, f: Account -> Account)
    requires ChartOk(chart)
    requires forall a :: f(a).id == a.id && f(a).kind == a.kind && f(a).normal == a.normal
    ensures ChartOk(Map(chart, f))
  {
    var mapped := Map(chart, f);
    forall a | a in mapped ensures Classified(a) {
      var i :| 0 <= i < |chart| && mapped[i] == a;
      assert chart[i] in chart;
    }
  }

  lemma {:induction false} FindMapped(chart: seq<Account>, f: Account -> Account, id: string)
    requires forall a :: f(a).id == a.id
    ensures Find(Map(chart, f), id) == if Find(chart, id).Some? then Some(f(Find(chart, id).value)) else None
  {
    if chart != [] { FindMapped(chart[..|chart| - 1], f, id); }
  }

  /** Changing accounts keeps the invariant when it undeletes none and deletes none that has rows. */
  lemma ChartKeeps(s: Books, f: Account -> Account)
    requires Inv(s)
    requires forall a :: f(a).id == a.id && f(a).kind == a.kind && f(a).normal == a.normal && f(a).header == a.header
    requires forall a: Account :: (a.deleted ==> f(a).deleted) && (f(a).deleted && !a.deleted ==> !HasRows(s.rows, a.id))
    ensures Inv(s.(chart := Map(s.chart, f)))
  {
    hide ChartOk, Settled, JournalOk, LinkOk, Reverses, Known, HasRows;
    var t := s.(chart := Map(s.chart, f));
    MappedChart(s.chart, f);
    forall c | c in t.closings ensures Settled(t, c.period) {
      SettledMapped(s, f, c.period);
    }
    forall r | r in s.rows ensures Known(t.chart, r.account) { StillKnown(s, f, r); }
  }

  lemma StillKnown(s: Books, f: Account -> Account, r: Row)
    requires r in s.rows && Known(s.chart, r.account)
    requires forall a: Account :: f(a).id == a.id && (f(a).deleted && !a.deleted ==> !HasRows(s.rows, a.id))
    ensures Known(Map(s.chart, f), r.account)
  {
    FindMapped(s.chart, f, r.account);
  }

  lemma SettledMapped(s: Books, f: Account -> Account, p: nat)
    requires Settled(s, p)
    requires forall a :: f(a).id == a.id && f(a).kind == a.kind && f(a).header == a.header && (a.deleted ==> f(a).deleted)
    ensures Settled(s.(chart := Map(s.chart, f)), p)
  {
    hide Movement;
    var t := s.(chart := Map(s.chart, f));
    forall a | a in t.chart && a.Listed() && IsProfitAndLoss(a.kind)
      ensures Movement(t.rows, a.id, Span(t.periods[p])) == 0
    {
      var k :| 0 <= k < |s.chart| && t.chart[k] == a;
      assert s.chart[k] in s.chart;
    }
  }

  lemma DeleteKeeps(s: Books, id: string)
    requires Inv(s)
    ensures Inv(DeleteAccount(s, id))
  {
    hide Inv;
    if !HasRows(s.rows, id) { ChartKeeps(s, SoftDelete(id)); }
  }

  lemma ClosePeriodKeeps(s: Books, p: nat)
    requires Inv(s)
    ensures Inv(ClosePeriod(s, p))
  {
    hide Movement;
    var t := ClosePeriod(s, p);
    forall c | c in t.closings ensures Settled(t, c.period) { assert Settled(s, c.period); }
  }

  lemma OpenAccountKeeps(s: Books, id: string, typeName: string, header: bool, retained: bool, at: nat)
    requires Inv(s)
    ensures Inv(OpenAccount(s, id, typeName, header, retained, at))
  {
    hide JournalOk, LinkOk, Reverses, Settled, ChartOk, Known;
    var t := OpenAccount(s, id, typeName, header, retained, at);
    if t != s {
      var c := ResolveClassification(typeName);
      var a, place := Account(id, c.kind, c.normal, true, false, header, retained), Min(at, |s.chart|);
      InsertedChart(s.chart, a, place);
      forall c | c in t.closings ensures Settled(t, c.period) { InsertedSettled(s, t, a, place, c.period); }
      forall r | r in s.rows ensures Known(t.chart, r.account) { InsertedKnown(s.chart, a, place, r.account); }
    }
  }

  function Inserted(chart: seq<Account>, a: Account, place: nat): seq<Account>
    requires place <= |chart|
  {
    chart[..place] + [a] + chart[place..]
  }

  lemma InsertedMembers(chart: seq<Account>, a: Account, place: nat, x: Account)
    requires place <= |chart|
    ensures x in Inserted(chart, a, place) <==> x in chart || x == a
  {
    assert chart == chart[..place] + chart[place..];
  }

  lemma InsertedAt(chart: seq<Account>, a: Account, place: nat, i: nat)
    requires place <= |chart| && i < |Inserted(chart, a, place)|
    ensures |Inserted(chart, a, place)| == |chart| + 1
    ensures Inserted(chart, a, place)[i] == (if i < place then chart[i] else if i == place then a else chart[i - 1])
    ensures i != place ==> Inserted(chart, a, place)[i] in chart
  {
  }

  lemma InsertedChart(chart: seq<Account>, a: Account, place: nat)
    requires ChartOk(chart) && Find(chart, a.id).None? && Classified(a) && place <= |chart|
    ensures ChartOk(Inserted(chart, a, place))
  {
    hide Inserted, Find;
    var after := Inserted(chart, a, place);
    forall i, j | 0 <= i < j < |after| ensures after[i].id != after[j].id {
      InsertedAt(chart, a, place, i);
      InsertedAt(chart, a, place, j);
    }
    forall x | x in after ensures Classified(x) { InsertedMembers(chart, a, place, x); }
  }

  lemma InsertedSettled(s: Books, t: Books, a: Account, place: nat, p: nat)
    requires RowsOk(s) && Find(s.chart, a.id).None? && place <= |s.chart| && Settled(s, p)
    requires t == s.(chart := Inserted(s.chart, a, place))
    ensures Settled(t, p)
  {
    hide Movement, RowsOk;
    NoRowsYet(s, a.id, Span(s.periods[p]));
    forall x | x in t.chart && x.Listed() && IsProfitAndLoss(x.kind) ensures Movement(t.rows, x.id, Span(t.periods[p])) == 0 {
      InsertedMembers(s.chart, a, place, x);
    }
  }

  lemma InsertedKnown(chart: seq<Account>, a: Account, place: nat, id: string)
    requires place <= |chart| && ChartOk(Inserted(chart, a, place)) && Known(chart, id)
    ensures Known(Inserted(chart, a, place), id)
  {
    var b := Find(chart, id).value;
    InsertedMembers(chart, a, place, b);
    FindMember(Inserted(chart, a, place), b);
  }

  lemma NoRowsYet(s: Books, id: string, w: Window)
    requires RowsOk(s) && Find(s.chart, id).None?
    ensures Movement(s.rows, id, w) == 0
  {
    SumZero(s.rows, RowNetOn(id, w));
  }

  lemma EnsurePeriodKeeps(s: Books, date: int, fiscalStart: string)
    requires Inv(s)
    ensures Inv(EnsurePeriod(s, date, fiscalStart))
  {
    hide FiscalPeriodForDate, Movement;
    var t := EnsurePeriod(s, date, fiscalStart);
    forall c | c in t.closings ensures Settled(t, c.period) { assert Settled(s, c.period); }
  }

  lemma ApplyKeeps(s: Books, step: Step)
    requires Inv(s)
    ensures Inv(Apply(s, step))
  {
    hide Inv, PostDocument, CreateDraft, PostJournal, Reverse, Adjust, CloseYear, EnsurePeriod, OpenAccount, DeleteAccount, ClosePeriod;
    match step
    case DocumentStep(doc) => DocumentKeeps(s, doc);
    case DraftStep(date, currency, lines, source) =>
      DraftKeeps(s, NewDraft(Standard, date, currency, lines,
        if source.Some? && source.value < |s.journals| then source else None));
    case PostStep(id) => PostAfter(s, id);
    case ReverseStep(id, date) => ReverseKeeps(s, id, date);
    case AdjustStep(id, date, lines, autoPost) => AdjustKeeps(s, id, date, lines, autoPost);
    case CloseStep(p, currency) => CloseKeeps(s, p, currency);
    case PeriodStep(date, fiscalStart) => EnsurePeriodKeeps(s, date, fiscalStart);
    case AccountStep(id, typeName, header, retained, at) => OpenAccountKeeps(s, id, typeName, header, retained, at);
    case ActiveStep(id, active) => ChartKeeps(s, SetActive(id, active));
    case DeleteStep(id) => DeleteKeeps(s, id);
    case BareCloseStep(p) => ClosePeriodKeeps(s, p);
  }

  lemma {:induction false} RunKeeps(s: Books, steps: seq<Step>)
    requires Inv(s)
    ensures Inv(Run(s, steps))
  {
    hide Inv, Apply;
    if steps != [] {
      RunKeeps(s, steps[..|steps| - 1]);
      ApplyKeeps(Run(s, steps[..|steps| - 1]), steps[|steps| - 1]);
    }
  }

  // ---- Nothing enters a closed period ----

  ghost predicate PeriodsEvolve(s: Books, t: Books) {
    && s.closings <= t.closings && |s.periods| <= |t.periods|
    && forall i :: 0 <= i < |s.periods| ==>
         t.periods[i].start == s.periods[i].start && t.periods[i].end == s.periods[i].end
         && (s.periods[i].closed ==> t.periods[i].closed)
  }

  /** Rows are only appended, and never with a date inside a period closed beforehand. */
  ghost predicate RowsGrow(s: Books, t: Books) {
    && |s.rows| <= |t.rows| && t.rows[..|s.rows|] == s.rows
    && forall i :: |s.rows| <= i < |t.rows| ==> !ClosedOn(s.periods, t.rows[i].date)
  }

  lemma AppendGrows(s: Books, t: Books, more: seq<Row>)
    requires t.rows == s.rows + more && forall r :: r in more ==> !ClosedOn(s.periods, r.date)
    ensures RowsGrow(s, t)
  {
    forall i | |s.rows| <= i < |t.rows| ensures !ClosedOn(s.periods, t.rows[i].date) {
      assert t.rows[i] == more[i - |s.rows|];
    }
  }

  lemma DocumentGrows(s: Books, doc: Document)
    ensures RowsGrow(s, PostDocument(s, doc).0)
  {
    if PostDocument(s, doc).0 != s {
      AppendGrows(s, PostDocument(s, doc).0, DocumentRows(doc));
    }
  }

  lemma PostGrows(s: Books, id: nat)
    ensures RowsGrow(s, PostJournal(s, id).0)
  {
    if PostingRefusal(s, id).None? {
      var j := s.journals[id];
      assert !ClosedOn(s.periods, j.date);
      AppendGrows(s, PostJournal(s, id).0, JournalRows(id, j));
    }
  }

  lemma CloseGrows(s: Books, p: nat, currency: string)
    ensures RowsGrow(s, CloseYear(s, p, currency).0) && PeriodsEvolve(s, CloseYear(s, p, currency).0)
  {
    hide CloseYear, PostClosing, ClosedOn, ClosingRows;
    CloseRows(s, p, currency);
    ClosePeriods(s, p, currency);
    assert s.rows + [] == s.rows;
    if ClosesLedger(s, p, currency) {
      var more := ClosingRows(s, p, currency);
      forall r | r in more ensures !ClosedOn(s.periods, r.date) {
        ClosingDate(s, p, currency, r);
      }
      AppendGrows(s, CloseYear(s, p, currency).0, more);
    }
  }

  lemma ClosePeriods(s: Books, p: nat, currency: string)
    ensures PeriodsEvolve(s, CloseYear(s, p, currency).0)
  {
    hide PostClosing, NewDraft, OpeningLines, NextFiscalPeriod, PeriodBalances, ClosedOn, PeriodExists;
    if CloseRefusal(s, p).None? {
      PostClosingRows(s, s.periods[p], FindRetained(s.chart).value.id, currency);
    }
  }

  lemma ClosingDate(s: Books, p: nat, currency: string, r: Row)
    requires p < |s.periods| && FindRetained(s.chart).Some? && r in ClosingRows(s, p, currency)
    ensures r.date == s.periods[p].end
  {
  }

  lemma DraftAndPostGrows(s: Books, draft: Journal)
    ensures var t := DraftAndPost(s, draft).0;
      RowsGrow(s, t) && t.periods == s.periods && t.chart == s.chart && t.closings == s.closings
  {
    hide PostJournal, ClosedOn;
    PostGrows(CreateDraft(s, draft).0, |s.journals|);
    PostFrame(CreateDraft(s, draft).0, |s.journals|);
  }

  lemma ReverseGrows(s: Books, id: nat, date: int)
    ensures var t := Reverse(s, id, date).0;
      RowsGrow(s, t) && t.periods == s.periods && t.chart == s.chart && t.closings == s.closings
  {
    hide DraftAndPost, ClosedOn, ValidateContext;
    if id < |s.journals| {
      DraftAndPostGrows(s, NewDraft(Reversing, date, s.journals[id].currency, Swapped(s.journals[id].lines), Some(id)));
    }
  }

  lemma ApplyGrows(s: Books, step: Step)
    ensures RowsGrow(s, Apply(s, step)) && PeriodsEvolve(s, Apply(s, step))
  {
    hide PostDocument, PostJournal, Reverse, DraftAndPost, CloseYear, FiscalPeriodForDate, ClosedOn, ValidateContext;
    match step
    case DocumentStep(doc) => DocumentGrows(s, doc); DocumentFrame(s, doc);
    case DraftStep(_, _, _, _) =>
    case PostStep(id) => PostGrows(s, id); PostFrame(s, id);
    case ReverseStep(id, date) => ReverseGrows(s, id, date);
    case AdjustStep(id, date, lines, autoPost) =>
      if id < |s.journals| {
        DraftAndPostGrows(s, NewDraft(Adjusting, date, s.journals[id].currency, lines, Some(id)));
      }
    case CloseStep(p, currency) => CloseGrows(s, p, currency);
    case _ =>
  }

  lemma DocumentFrame(s: Books, doc: Document)
    ensures PostDocument(s, doc).0.periods == s.periods && PostDocument(s, doc).0.chart == s.chart
    ensures PostDocument(s, doc).0.closings == s.closings
  {
  }

  lemma PostFrame(s: Books, id: nat)
    ensures PostJournal(s, id).0.periods == s.periods && PostJournal(s, id).0.chart == s.chart
    ensures PostJournal(s, id).0.closings == s.closings
  {
  }

  lemma ClosedStaysClosed(s: Books, t: Books, date: int)
    requires PeriodsEvolve(s, t) && ClosedOn(s.periods, date)
    ensures ClosedOn(t.periods, date)
  {
    var p :| p in s.periods && p.closed && Within(Span(p), date);
    var k :| 0 <= k < |s.periods| && s.periods[k] == p;
    assert t.periods[k] in t.periods;
  }

  lemma GrowTransitive(s: Books, t: Books, u: Books)
    requires RowsGrow(s, t) && PeriodsEvolve(s, t) && RowsGrow(t, u) && PeriodsEvolve(t, u)
    ensures RowsGrow(s, u) && PeriodsEvolve(s, u)
  {
    hide ClosedOn;
    forall i | |s.rows| <= i < |u.rows| ensures !ClosedOn(s.periods, u.rows[i].date) {
      if i < |t.rows| {
        assert u.rows[i] == u.rows[..|t.rows|][i];
      } else if ClosedOn(s.periods, u.rows[i].date) {
        ClosedStaysClosed(s, t, u.rows[i].date);
      }
    }
    assert u.rows[..|s.rows|] == u.rows[..|t.rows|][..|s.rows|];
  }

  lemma {:induction false} RunGrows(s: Books, steps: seq<Step>)
    ensures RowsGrow(s, Run(s, steps)) && PeriodsEvolve(s, Run(s, steps))
  {
    hide Apply, RowsGrow, PeriodsEvolve;
    if steps == [] {
      GrowReflexive(s);
    } else {
      var t := Run(s, steps[..|steps| - 1]);
      RunGrows(s, steps[..|steps| - 1]);
      ApplyGrows(t, steps[|steps| - 1]);
      GrowTransitive(s, t, Apply(t, steps[|steps| - 1]));
    }
  }

  lemma GrowReflexive(s: Books)
    ensures RowsGrow(s, s) && PeriodsEvolve(s, s)
  {
  }

  function DatedIn(w: Window): Row -> bool { (r: Row) => Within(w, r.date) }

  /**
   Once a fiscal year is closed, no run of operations reopens it, adds a row
   dated inside it, or moves an income, cost or expense account within it: such an
   account stays at zero if it was listed at the close, and at what the close left
   it with if it was not.
   */
  lemma ClosedYearIsFinal(s: Books, p: nat, currency: string, after: seq<Step>, a: Account)
    requires Inv(s) && CloseYear(s, p, currency).1.Done?
    ensures var closed := CloseYear(s, p, currency).0;
      var t := Run(closed, after);
      && p < |t.periods| && t.periods[p] == s.periods[p].(closed := true)
      && Filter(t.rows, DatedIn(Span(t.periods[p]))) == Filter(closed.rows, DatedIn(Span(t.periods[p])))
      && (a in t.chart && a.Listed() && IsProfitAndLoss(a.kind) ==> Movement(t.rows, a.id, Span(t.periods[p])) == 0)
      && (a in s.chart && IsProfitAndLoss(a.kind) ==>
            Movement(t.rows, a.id, Span(t.periods[p])) == if a.Listed() then 0 else Movement(s.rows, a.id, Span(t.periods[p])))
  {
    hide CloseYear, Run, Movement, Inv, RowsGrow, PeriodsEvolve;
    var closed := CloseYear(s, p, currency).0;
    CloseKeeps(s, p, currency);
    RunKeeps(closed, after);
    RunGrows(closed, after);
    FinalAfterClose(s, p, currency, Run(closed, after), a);
  }

  /** The same of any books that later operations can have left. */
  lemma FinalAfterClose(s: Books, p: nat, currency: string, t: Books, a: Account)
    requires Inv(s) && CloseYear(s, p, currency).1.Done?
    requires Inv(t) && RowsGrow(CloseYear(s, p, currency).0, t) && PeriodsEvolve(CloseYear(s, p, currency).0, t)
    ensures var closed := CloseYear(s, p, currency).0;
      && p < |t.periods| && t.periods[p] == s.periods[p].(closed := true)
      && Filter(t.rows, DatedIn(Span(t.periods[p]))) == Filter(closed.rows, DatedIn(Span(t.periods[p])))
      && (a in t.chart && a.Listed() && IsProfitAndLoss(a.kind) ==> Movement(t.rows, a.id, Span(t.periods[p])) == 0)
      && (a in s.chart && IsProfitAndLoss(a.kind) ==>
            Movement(t.rows, a.id, Span(t.periods[p])) == if a.Listed() then 0 else Movement(s.rows, a.id, Span(t.periods[p])))
  {
    hide CloseYear, Movement, Inv;
    var closed := CloseYear(s, p, currency).0;
    CloseCloses(s, p, currency);
    SettledZero(t, t.closings[|s.closings|], a);
    NothingInside(closed, t, p);
    MovementInside(closed.rows, a.id, Span(s.periods[p]));
    MovementInside(t.rows, a.id, Span(s.periods[p]));
    if a in s.chart && IsProfitAndLoss(a.kind) { CloseLeaves(s, p, currency, a); }
  }

  /** A movement within a window is that of the rows dated in it. */
  lemma MovementInside(rows: seq<Row>, account: string, w: Window)
    ensures Movement(rows, account, w) == Movement(Filter(rows, DatedIn(w)), account, w)
  {
    SumFilter(rows, DatedIn(w), RowNetOn(account, w));
  }

  lemma CloseLeaves(s: Books, p: nat, currency: string, a: Account)
    requires Inv(s) && CloseYear(s, p, currency).1.Done?
    requires p < |s.periods| && a in s.chart && IsProfitAndLoss(a.kind)
    ensures Movement(CloseYear(s, p, currency).0.rows, a.id, Span(s.periods[p]))
         == if a.Listed() then 0 else Movement(s.rows, a.id, Span(s.periods[p]))
  {
    hide PostClosing, CarryForward, Inv, Movement, PeriodBalances;
    CarryKeepsRows(s, p, currency);
    PostClosingRows(s, s.periods[p], FindRetained(s.chart).value.id, currency);
    PeriodZero(s, s.periods[p], FindRetained(s.chart).value, currency, a);
  }

  /**
   The exact condition: after a completed close an account of the chart that takes
   part in profit has no movement left in the year exactly when it is listed or had none.
   */
  lemma ClosedAccountIsZeroIff(s: Books, p: nat, currency: string, after: seq<Step>, a: Account)
    requires Inv(s) && CloseYear(s, p, currency).1.Done?
    requires a in s.chart && IsProfitAndLoss(a.kind)
    ensures p < |s.periods|
    ensures Movement(Run(CloseYear(s, p, currency).0, after).rows, a.id, Span(s.periods[p])) == 0
      <==> a.Listed() || Movement(s.rows, a.id, Span(s.periods[p])) == 0
  {
    hide CloseYear, Run, Movement, Inv;
    CloseCloses(s, p, currency);
    ClosedYearIsFinal(s, p, currency, after, a);
  }

  lemma CloseCloses(s: Books, p: nat, currency: string)
    requires CloseYear(s, p, currency).1.Done?
    ensures var t := CloseYear(s, p, currency).0;
      && p < |s.periods| && p < |t.periods| && t.periods[p] == s.periods[p].(closed := true)
      && |t.closings| == |s.closings| + 1 && t.closings[|s.closings|].period == p
  {
    hide PostClosing, OpeningLines, NextFiscalPeriod, PeriodBalances;
    if CloseRefusal(s, p).None? {
      PostClosingRows(s, s.periods[p], FindRetained(s.chart).value.id, currency);
    }
  }

  lemma SettledZero(s: Books, c: YearClosing, a: Account)
    requires Inv(s) && c in s.closings
    ensures c.period < |s.periods|
    ensures a in s.chart && a.Listed() && IsProfitAndLoss(a.kind) ==> Movement(s.rows, a.id, Span(s.periods[c.period])) == 0
  {
    assert Settled(s, c.period);
  }

  lemma NothingInside(s: Books, t: Books, p: nat)
    requires RowsGrow(s, t) && p < |s.periods| && s.periods[p].closed
    ensures Filter(t.rows, DatedIn(Span(s.periods[p]))) == Filter(s.rows, DatedIn(Span(s.periods[p])))
  {
    var w := Span(s.periods[p]);
    var more := t.rows[|s.rows|..];
    assert t.rows == s.rows + more;
    FilterAppend(s.rows, more, DatedIn(w));
    forall r | r in more ensures !DatedIn(w)(r) {
      var i :| 0 <= i < |more| && more[i] == r;
      assert !ClosedOn(s.periods, t.rows[|s.rows| + i].date);
      assert s.periods[p] in s.periods;
    }
    FilterNone(more, DatedIn(w));
  }

  // ---- The current period ----

  /** Ensuring the current period twice is ensuring it once. */
  lemma EnsureTwice(s: Books, date: int, fiscalStart: string)
    ensures EnsurePeriod(EnsurePeriod(s, date, fiscalStart), date, fiscalStart) == EnsurePeriod(s, date, fiscalStart)
  {
    hide FiscalPeriodForDate;
    var current := FiscalPeriodForDate(date, fiscalStart);
    var t := EnsurePeriod(s, date, fiscalStart);
    if t != s { assert Period(current.start, current.end, false) in t.periods; }
  }

  /**
   A period that is added contains the date it is added for exactly when the date
   lies within a year of the boundary of its own year, which it always does for a
   month and day that some year has.
   */
  lemma EnsuredPeriodCoversIff(s: Books, date: int, fiscalStart: string)
    requires YearOf(date) >= 101 && EnsurePeriod(s, date, fiscalStart) != s
    ensures var added := EnsurePeriod(s, date, fiscalStart).periods;
      var (month, day) := ParseStart(fiscalStart);
      && |added| == |s.periods| + 1
      && (Within(Span(added[|s.periods|]), date) <==>
            Utc(YearOf(date) - 1, month, day) <= date < Utc(YearOf(date) + 1, month, day))
      && (Recurring(month, day) ==> Within(Span(added[|s.periods|]), date))
  {
    hide Recurring, PeriodFor, YearOf, ParseStart;
    var (month, day) := ParseStart(fiscalStart);
    PeriodCoversIff(date, month, day);
    if Recurring(month, day) { PeriodContains(date, month, day); }
  }
}
