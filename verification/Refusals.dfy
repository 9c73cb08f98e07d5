/** When the operations on the books are refused and why: the exact condition of each refusal, in terms of the tables. */
module Refusals {
  import opened Wrappers
  import opened Sums
  import opened Money
  import opened Accounts
  import opened Ledger
  import opened Posting
  import opened FiscalCalendar
  import opened Books
  import opened BookInvariants
  import opened YearClose

  ghost predicate DayClosed(periods: seq<Period>, date: int) {
    exists q :: q in periods && q.closed && q.start <= date <= q.end
  }
  ghost predicate Live(chart: seq<Account>, id: string) {
    exists a :: a in chart && a.id == id && !a.deleted
  }
  ghost predicate InUse(chart: seq<Account>, id: string) {
    exists a :: a in chart && a.id == id && !a.deleted && a.active
  }

  /** Debits and credits to post on a date, and the accounts they are for. */
  datatype Proposal = Proposal(date: int, debit: int, credit: int, accounts: set<string>)

  predicate Apart(x: Proposal) { x.debit - x.credit > CENT || x.credit - x.debit > CENT }

  predicate Weighs(x: Proposal) { !Apart(x) && x.debit > 0 }

  ghost predicate Acceptable(s: Books, x: Proposal) {
    Weighs(x) && !DayClosed(s.periods, x.date) && forall id :: id in x.accounts ==> InUse(s.chart, id)
  }

  /** Why a proposal is not accepted: the first of these reasons that holds. */
  ghost predicate Because(s: Books, x: Proposal, why: Refusal) {
    match why
    case Unbalanced => Apart(x)
    case ZeroAmount => !Apart(x) && x.debit <= 0
    case PeriodClosed => Weighs(x) && DayClosed(s.periods, x.date)
    case AccountNotFound => Weighs(x) && !DayClosed(s.periods, x.date) && exists id :: id in x.accounts && !Live(s.chart, id)
    case AccountInactive =>
      && Weighs(x) && !DayClosed(s.periods, x.date) && (forall id :: id in x.accounts ==> Live(s.chart, id))
      && exists id :: id in x.accounts && !InUse(s.chart, id)
    case _ => false
  }

  function OfLines(date: int, lines: seq<Line>): Proposal {
    Proposal(date, Sum(lines, LineDebit()), Sum(lines, LineCredit()), set l | l in lines :: l.account)
  }

  function Credited(): PostingLine -> int { (l: PostingLine) => l.credit }

  function OfDocument(doc: Document): Proposal {
    Proposal(doc.date, Sum(doc.lines, DebitOf()), Sum(doc.lines, Credited()), set l | l in doc.lines :: l.account)
  }

  // ---- Journal lines and documents ----

  lemma OneAccount(chart: seq<Account>, id: string)
    requires DistinctIds(chart)
    ensures (Known(chart, id) <==> Live(chart, id)) && (Usable(chart, id) <==> InUse(chart, id))
  {
    if a :| a in chart && a.id == id { FindMember(chart, a); }
  }

  lemma ContextIff(s: Books, date: int, lines: seq<Line>)
    requires DistinctIds(s.chart)
    ensures ValidateContext(s, date, lines).None? <==> Acceptable(s, OfLines(date, lines))
    ensures forall why :: ValidateContext(s, date, lines) == Some(why) <==> Because(s, OfLines(date, lines), why)
  {
    hide Known, Usable, Live, InUse, Sum;
    var x := OfLines(date, lines);
    forall l | l in lines
      ensures l.account in x.accounts
      ensures (Known(s.chart, l.account) <==> Live(s.chart, l.account)) && (Usable(s.chart, l.account) <==> InUse(s.chart, l.account))
    {
      OneAccount(s.chart, l.account);
    }
    UsableIsKnown(s.chart);
    assert ClosedOn(s.periods, date) <==> DayClosed(s.periods, date);
    assert (exists id :: id in x.accounts && !Live(s.chart, id)) <==> (exists l :: l in lines && !Known(s.chart, l.account));
    assert (exists id :: id in x.accounts && !InUse(s.chart, id)) <==> (exists l :: l in lines && !Usable(s.chart, l.account));
  }

  lemma UsableIsKnown(chart: seq<Account>)
    ensures forall id :: Usable(chart, id) ==> Known(chart, id)
  {
  }

  lemma SameProposal(doc: Document)
    ensures OfLines(doc.date, Plain(doc.lines)) == OfDocument(doc)
  {
    hide Sum;
    PlainDebit(doc.lines);
    SumMap(doc.lines, ToLine(), LineCredit(), Credited());
    SameAccounts(doc.lines, Plain(doc.lines));
  }

  lemma SameAccounts(xs: seq<PostingLine>, ys: seq<Line>)
    requires |xs| == |ys| && forall i :: 0 <= i < |xs| ==> ys[i].account == xs[i].account
    ensures (set l | l in xs :: l.account) == set l | l in ys :: l.account
  {
    var (these, those) := (set l | l in xs :: l.account, set l | l in ys :: l.account);
    forall id | id in these ensures id in those {
      var i :| 0 <= i < |xs| && xs[i].account == id;
      assert ys[i] in ys;
    }
    forall id | id in those ensures id in these {
      var i :| 0 <= i < |ys| && ys[i].account == id;
      assert xs[i] in xs;
    }
  }

  /**
   What becomes of a source document: refused for the first reason that holds, or because a
   row would be negative or have both sides; passed over when the ledger has its rows;
   posted otherwise. Only then do the books change.
   */
  lemma DocumentOutcome(s: Books, doc: Document)
    requires DistinctIds(s.chart)
    ensures var (t, outcome) := PostDocument(s, doc);
      var (accepted, known) := (Acceptable(s, OfDocument(doc)), exists r :: r in s.rows && r.origin == FromDocument(doc.kind, doc.id));
      var unfit := exists r :: r in DocumentRows(doc) && (r.debit < 0 || r.credit < 0 || (r.debit != 0 && r.credit != 0));
      && (outcome == Reused <==> accepted && known)
      && (outcome.Done? <==> accepted && !known && !unfit)
      && (forall why :: outcome == Refused(why) <==>
            Because(s, OfDocument(doc), why) || (why == ConstraintViolated && accepted && !known && unfit))
      && t == s.(rows := s.rows + if outcome.Done? then DocumentRows(doc) else [])
  {
    hide ValidateContext, Acceptable, Because, Group, BaseAmounts, Sum;
    ContextIff(s, doc.date, Plain(doc.lines));
    SameProposal(doc);
    NotConstraint(s, OfDocument(doc));
    assert s.rows + [] == s.rows;
  }

  lemma NotConstraint(s: Books, x: Proposal)
    ensures !Because(s, x, ConstraintViolated)
  {
  }

  // ---- Journals ----

  predicate Negative(l: Line) { l.debit < 0 || l.credit < 0 }

  /**
   What becomes of a draft: refused without a trace when a total is negative; its header left
   behind without lines when a line is; and otherwise the last journal.
   */
  lemma DraftOutcome(s: Books, kind: EntryType, date: int, currency: string, lines: seq<Line>, source: Option<nat>)
    ensures var (t, outcome) := CreateDraft(s, NewDraft(kind, date, currency, lines, source));
      var (debit, credit) := (Sum(lines, LineDebit()), Sum(lines, LineCredit()));
      var negative := exists l :: l in lines && Negative(l);
      && outcome == (if debit < 0 || credit < 0 || negative then Refused(ConstraintViolated) else Done(|s.journals|))
      && t == s.(journals := s.journals +
           if debit < 0 || credit < 0 then []
           else [Journal(kind, date, currency, if negative then [] else lines, debit, credit, Draft, source, None)])
  {
    hide Sum;
    assert s.journals + [] == s.journals;
  }

  /** One side of each line is above zero and the other is zero, and no line is there twice. */
  ghost predicate Entries(lines: seq<Line>) {
    && (forall l :: l in lines ==> (l.debit > 0 && l.credit == 0) || (l.credit > 0 && l.debit == 0))
    && forall i, j :: 0 <= i < j < |lines| ==> lines[i] != lines[j]
  }

  /**
   A journal posts exactly when it is still a draft, its lines are accepted on its date, its
   stored totals agree above zero, and its lines are entries. A posted one is a duplicate,
   and a draft that is not accepted is refused for the reason that its lines are not.
   */
  lemma JournalOutcome(s: Books, id: nat)
    requires Inv(s)
    ensures var outcome := PostJournal(s, id).1;
      && (outcome == Refused(NotFound) <==> id >= |s.journals|)
      && (id < |s.journals| ==>
            var j := s.journals[id];
            var (x, agree) := (OfLines(j.date, j.lines), j.totalDebit == j.totalCredit);
            && (outcome == Refused(Duplicate) <==> j.status.Posted?)
            && (outcome.Done? <==> j.status.Draft? && Acceptable(s, x) && agree && j.totalDebit > 0 && Entries(j.lines))
            && (outcome == Refused(Unbalanced) <==> j.status.Draft? && (Apart(x) || (Acceptable(s, x) && !agree)))
            && (outcome == Refused(InvalidLine) <==>
                  j.status.Draft? && Acceptable(s, x) && agree && j.totalDebit > 0 && !Entries(j.lines))
            && (j.status.Draft? && !Acceptable(s, x) ==> forall why :: outcome == Refused(why) <==> Because(s, x, why)))
      && (!outcome.Done? ==> PostJournal(s, id).0 == s)
  {
    hide Acceptable, Because, ValidateContext, RowsOk, LinksOk, OneReversal, YearsSettled, ReversalsPosted, HasOrigin, PostedOk;
    if id < |s.journals| {
      var j := s.journals[id];
      assert JournalOk(s.rows, j, id);
      ContextIff(s, j.date, j.lines);
      NotOtherReasons(s, OfLines(j.date, j.lines));
      if Acceptable(s, OfLines(j.date, j.lines)) { EntriesIff(s, j); }
    }
  }

  lemma NotOtherReasons(s: Books, x: Proposal)
    ensures !Because(s, x, NotFound) && !Because(s, x, Duplicate) && !Because(s, x, InvalidLine) && !Because(s, x, AlreadyPosted)
    ensures Because(s, x, Unbalanced) <==> Apart(x)
    ensures Because(s, x, NotPosted) || Because(s, x, AlreadyReversed) ==> false
  {
  }

  lemma EntriesIff(s: Books, j: Journal)
    requires DistinctIds(s.chart) && Acceptable(s, OfLines(j.date, j.lines)) && forall l :: l in j.lines ==> LineAllowed(l)
    ensures Insertable(s.chart, j.lines) <==> Entries(j.lines)
  {
    hide Usable, InUse, Sum;
    forall l | l in j.lines ensures Usable(s.chart, l.account) {
      assert l.account in OfLines(j.date, j.lines).accounts;
      OneAccount(s.chart, l.account);
    }
  }

  // ---- Reversals and adjustments ----

  ghost predicate HasReversal(s: Books, id: nat) {
    exists j :: j in s.journals && j.kind == Reversing && j.source == Some(id) && j.status.Posted?
  }

  /**
   A reversal goes through exactly when its journal is posted, has no posted reversal, its
   date is in no closed period and its accounts are all in use: nothing else stops it.
   */
  lemma ReversalOutcome(s: Books, id: nat, date: int)
    requires Inv(s)
    ensures var outcome := Reverse(s, id, date).1;
      && (outcome == Refused(NotFound) <==> id >= |s.journals|)
      && (id < |s.journals| ==>
            var j := s.journals[id];
            var used := forall l :: l in j.lines ==> InUse(s.chart, l.account);
            && (outcome == Refused(NotPosted) <==> j.status.Draft?)
            && (outcome == Refused(AlreadyReversed) <==> j.status.Posted? && HasReversal(s, id))
            && (outcome == Refused(PeriodClosed) <==> j.status.Posted? && !HasReversal(s, id) && DayClosed(s.periods, date))
            && (outcome.Done? <==> j.status.Posted? && !HasReversal(s, id) && !DayClosed(s.periods, date) && used))
      && (!outcome.Done? ==> Reverse(s, id, date).0 == s)
  {
    hide Inv, Because, InUse, DayClosed, ValidateContext, CreateDraft, PostingRefusal, NewDraft, Swapped, JournalRows;
    assert HasReversal(s, id) <==> AlreadyReversedIn(s.journals, id);
    if id < |s.journals| && s.journals[id].status.Posted? && !HasReversal(s, id) {
      ReversalProposal(s, id, date);
      ContextIff(s, date, Swapped(s.journals[id].lines));
      if ValidateContext(s, date, Swapped(s.journals[id].lines)).None? { ReversalPosts(s, id, date); }
      ReasonOfWeighty(s, OfLines(date, Swapped(s.journals[id].lines)));
    }
  }

  lemma ReasonOfWeighty(s: Books, x: Proposal)
    requires Weighs(x)
    ensures Because(s, x, PeriodClosed) <==> DayClosed(s.periods, x.date)
    ensures forall why :: Because(s, x, why) ==> why in {PeriodClosed, AccountNotFound, AccountInactive}
  {
  }

  lemma ReversalProposal(s: Books, id: nat, date: int)
    requires Inv(s) && id < |s.journals| && s.journals[id].status.Posted?
    ensures DistinctIds(s.chart)
    ensures var x := OfLines(date, Swapped(s.journals[id].lines));
      Weighs(x) && x.accounts == set l | l in s.journals[id].lines :: l.account
  {
    hide RowsOk, LinksOk, OneReversal, YearsSettled, ReversalsPosted;
    var lines := s.journals[id].lines;
    assert JournalOk(s.rows, s.journals[id], id);
    SumMap(lines, SwapLine(), LineDebit(), LineCredit());
    SumMap(lines, SwapLine(), LineCredit(), LineDebit());
    SwappedAccounts(lines, Swapped(lines));
  }

  lemma SwappedAccounts(xs: seq<Line>, ys: seq<Line>)
    requires |xs| == |ys| && forall i :: 0 <= i < |xs| ==> ys[i].account == xs[i].account
    ensures (set l | l in xs :: l.account) == set l | l in ys :: l.account
  {
    var (these, those) := (set l | l in xs :: l.account, set l | l in ys :: l.account);
    forall id | id in these ensures id in those {
      var i :| 0 <= i < |xs| && xs[i].account == id;
      assert ys[i] in ys;
    }
    forall id | id in those ensures id in these {
      var i :| 0 <= i < |ys| && ys[i].account == id;
      assert xs[i] in xs;
    }
  }

  /**
   An adjustment goes through exactly when its journal is posted, its lines are accepted on
   its date and none is negative, and, if it is to be posted at once, they balance exactly
   and are entries.
   */
  lemma AdjustmentOutcome(s: Books, id: nat, date: int, lines: seq<Line>, autoPost: bool)
    requires Inv(s)
    ensures var (x, outcome) := (OfLines(date, lines), Adjust(s, id, date, lines, autoPost).1);
      && (outcome == Refused(NotFound) <==> id >= |s.journals|)
      && (id < |s.journals| ==>
            var j := s.journals[id];
            && (outcome == Refused(NotPosted) <==> j.status.Draft?)
            && (outcome.Done? <==>
                  && j.status.Posted? && Acceptable(s, x) && (forall l :: l in lines ==> !Negative(l))
                  && (autoPost ==> x.debit == x.credit && Entries(lines)))
            && (j.status.Posted? && !Acceptable(s, x) ==>
                  Adjust(s, id, date, lines, autoPost).0 == s && forall why :: outcome == Refused(why) <==> Because(s, x, why)))
  {
    hide Acceptable, Because, ValidateContext, Sum;
    if id < |s.journals| && s.journals[id].status.Posted? {
      var draft := NewDraft(Adjusting, date, s.journals[id].currency, lines, Some(id));
      ContextIff(s, date, lines);
      NotOtherReasons(s, OfLines(date, lines));
      DraftOutcome(s, Adjusting, date, s.journals[id].currency, lines, Some(id));
      if forall l :: l in lines ==> !Negative(l) { NoNegativeSum(lines); }
      if Acceptable(s, OfLines(date, lines)) { PostingOfDraft(s, draft, lines); }
    }
  }

  lemma PostingOfDraft(s: Books, draft: Journal, lines: seq<Line>)
    requires Inv(s) && Acceptable(s, OfLines(draft.date, lines))
    requires draft == NewDraft(draft.kind, draft.date, draft.currency, lines, draft.source)
    ensures draft.totalDebit >= 0
    ensures var outcome := DraftAndPost(s, draft).1;
      && outcome != Refused(NotFound) && outcome != Refused(NotPosted)
      && (outcome.Done? <==>
            (forall l :: l in lines ==> !Negative(l)) && Sum(lines, LineDebit()) == Sum(lines, LineCredit()) && Entries(lines))
  {
    hide ValidateContext, Sum, RowsOk, LinksOk, OneReversal, YearsSettled, ReversalsPosted, HasOrigin;
    var (drafted, outcome) := CreateDraft(s, draft);
    ContextIff(s, draft.date, lines);
    if outcome.Done? {
      NoRowsAhead(s, |s.journals|);
      assert drafted.journals[|s.journals|] == draft;
      SameContext(s, drafted, draft.date, lines);
      EntriesIff(s, draft);
      NotOtherReasons(s, OfLines(draft.date, lines));
    } else if forall l :: l in lines ==> !Negative(l) {
      NoNegativeSum(lines);
    }
  }

  lemma NoNegativeSum(lines: seq<Line>)
    requires forall l :: l in lines ==> !Negative(l)
    ensures Sum(lines, LineCredit()) >= 0
  {
    SumNonNegative(lines, LineCredit());
  }

  // ---- Closing a year ----

  predicate KeepsEarnings(a: Account) { a.retained && a.kind == Equity && a.active && !a.deleted }

  /** The retained-earnings account of a close is the first in the chart that qualifies. */
  lemma {:induction false} RetainedIsFirst(chart: seq<Account>)
    ensures FindRetained(chart).None? <==> forall a :: a in chart ==> !KeepsEarnings(a)
    ensures FindRetained(chart).Some? ==> exists k ::
      && 0 <= k < |chart| && chart[k] == FindRetained(chart).value && KeepsEarnings(chart[k])
      && forall i :: 0 <= i < k ==> !KeepsEarnings(chart[i])
  {
    if chart != [] {
      var init, last := chart[..|chart| - 1], chart[|chart| - 1];
      assert chart == init + [last];
      RetainedIsFirst(init);
      if FindRetained(init).Some? {
        var k :| 0 <= k < |init| && init[k] == FindRetained(init).value
          && KeepsEarnings(init[k]) && forall i :: 0 <= i < k ==> !KeepsEarnings(init[i]);
        assert chart[k] == FindRetained(chart).value;
      } else {
        assert forall i :: 0 <= i < |init| ==> init[i] in init;
        assert chart[|init|] == last;
      }
    }
  }

  /** Why a close does not begin: the first of these reasons that holds. */
  lemma CloseRefusedIff(s: Books, p: nat)
    ensures var refusal := CloseRefusal(s, p);
      && (refusal == Some(NotFound) <==> p >= |s.periods|)
      && (p < |s.periods| ==>
            var q := s.periods[p];
            var done := q.closed || exists c :: c in s.closings && c.fiscalYear == YearOf(q.end);
            var keeper := exists a :: a in s.chart && KeepsEarnings(a);
            && (refusal == Some(AlreadyClosed) <==> done)
            && (refusal == Some(PeriodClosed) <==> !done && DayClosed(s.periods, q.end))
            && (refusal == Some(NoRetainedEarnings) <==> !done && !DayClosed(s.periods, q.end) && !keeper)
            && (refusal == None <==> !done && !DayClosed(s.periods, q.end) && keeper))
  {
    hide FindRetained, YearOf;
    RetainedIsFirst(s.chart);
  }
}
