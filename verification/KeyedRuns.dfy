/**
 The laws of the ledger over runs in which keyed attempts, cut short anywhere, come between
 the ordinary operations. A half-written journal may have totals that are not those of its
 lines; what keeps the laws is that its lines still balance.
 */
module KeyedRuns {
  import opened Wrappers
  import opened Sums
  import opened Money
  import opened Accounts
  import opened Ledger
  import opened Posting
  import opened Reports
  import opened Books
  import opened BookInvariants
  import opened BookRuns
  import opened LedgerRuns
  import opened KeyedJournals
  import opened ExactlyOnce
  import R = Reversals

  // ---- The invariant ----

  ghost predicate Balanced(lines: seq<Line>) { Sum(lines, LineDebit()) == Sum(lines, LineCredit()) }

  /** A draft that attempts may rewrite. */
  ghost predicate Open(j: Journal) { j.status.Draft? && j.kind != Reversing && Balanced(j.lines) }

  ghost predicate KeysOk(s: Keyed) {
    forall key :: key in s.keys ==>
      && s.keys[key] < |s.books.journals|
      && (s.books.journals[s.keys[key]].status.Draft? ==> Open(s.books.journals[s.keys[key]]))
  }

  ghost predicate InvK(s: Keyed) { Inv(s.books) && KeysOk(s) }

  lemma StartIsOk()
    ensures InvK(Keyed(EMPTY, map[]))
  {
    EmptyOk();
  }

  /** What an attempt writes into a draft. */
  ghost predicate Edit(j: Journal, k: Journal) {
    Open(k) && k.source == j.source && forall l :: l in k.lines ==> LineAllowed(l)
  }

  lemma EditKeeps(b: Books, id: nat, k: Journal)
    requires Inv(b) && id < |b.journals| && Open(b.journals[id]) && Edit(b.journals[id], k)
    ensures Inv(b.(journals := b.journals[id := k]))
  {
    hide Swapped, Movement, Sum;
    var t := b.(journals := b.journals[id := k]);
    forall i | 0 <= i < |t.journals| ensures JournalOk(t.rows, t.journals[i], i) && LinkOk(t.journals, i) {
      assert JournalOk(b.rows, b.journals[i], i) && LinkOk(b.journals, i);
    }
    forall i, j, n | 0 <= i < j < |t.journals| && Reverses(t.journals[i], n) ensures !Reverses(t.journals[j], n) {
      assert i != id && (j != id ==> Reverses(b.journals[i], n));
    }
    forall c | c in t.closings ensures Settled(t, c.period) { assert Settled(b, c.period); }
  }

  lemma EditKeepsKeys(s: Keyed, id: nat, k: Journal)
    requires KeysOk(s) && id < |s.books.journals| && Open(k)
    ensures KeysOk(WithJournal(s, id, k))
  {
  }

  // ---- One write ----

  lemma WantedIsOpen(r: Request)
    requires CheckRequest(r).None?
    ensures Open(Wanted(r)) && Wanted(r).source == None && Open(Wanted(r).(lines := []))
  {
    if r.TransferRequest? {
      var lines := Wanted(r).lines;
      SumOfTwo(lines[0], lines[1], LineDebit());
      SumOfTwo(lines[0], lines[1], LineCredit());
    }
  }

  lemma LinesTogether(lines: seq<Line>, more: seq<Line>)
    requires Balanced(lines) && Balanced(more)
    ensures Balanced(lines + more)
  {
    SumAppend(lines, more, LineDebit());
    SumAppend(lines, more, LineCredit());
  }

  lemma HeaderKeeps(b: Books, header: Journal)
    requires Inv(b) && Open(header) && header.source == None && header.lines == []
    ensures Inv(b.(journals := b.journals + [header]))
  {
    NoRowsAhead(b, |b.journals|);
    AppendJournal(b, header);
  }

  lemma NoLinesBalance()
    ensures Balanced([])
  {
  }

  lemma LinesStayAllowed(b: Books, id: nat)
    requires Inv(b) && id < |b.journals|
    ensures forall l :: l in b.journals[id].lines ==> LineAllowed(l)
  {
    assert JournalOk(b.rows, b.journals[id], id);
  }

  /** Every write keeps the invariant, and until the entry is posted it leaves a draft that can be rewritten again. */
  lemma PerformKeeps(s: Keyed, key: string, id: nat, r: Request, w: Write)
    requires InvK(s) && CheckRequest(r).None?
    requires if w.InsertHeader? then id == |s.books.journals| else id < |s.books.journals| && Open(s.books.journals[id])
    ensures var (t, refusal) := Perform(s, key, id, r, w);
      InvK(t) && (refusal.None? && !w.PostEntry? ==> id < |t.books.journals| && Open(t.books.journals[id]))
  {
    hide Inv, Wanted, CheckRequest, PostJournal, LineAllowed, Balanced;
    WantedIsOpen(r);
    NoLinesBalance();
    match w {
      case InsertHeader => HeaderKeeps(s.books, Wanted(r).(lines := []));
      case PostEntry => PostEntryKeeps(s, id);
      case UpdateHeader =>
        var k := Rewritten(s.books.journals[id], r);
        LinesStayAllowed(s.books, id);
        EditKeeps(s.books, id, k);
        EditKeepsKeys(s, id, k);
      case DeleteLines =>
        var k := s.books.journals[id].(lines := []);
        EditKeeps(s.books, id, k);
        EditKeepsKeys(s, id, k);
      case InsertLines =>
        var k := s.books.journals[id].(lines := s.books.journals[id].lines + Wanted(r).lines);
        if forall l :: l in Wanted(r).lines ==> LineAllowed(l) {
          LinesStayAllowed(s.books, id);
          LinesTogether(s.books.journals[id].lines, Wanted(r).lines);
          EditKeeps(s.books, id, k);
          EditKeepsKeys(s, id, k);
        }
    }
  }

  lemma PostEntryKeeps(s: Keyed, id: nat)
    requires InvK(s)
    ensures InvK(s.(books := PostJournal(s.books, id).0))
  {
    hide Sound, PostingRefusal, Open;
    PostKeeps(s.books, id);
    PostingRange(s.books, id);
  }

  lemma {:induction false} ExecuteKeeps(s: Keyed, key: string, id: nat, r: Request, writes: seq<Write>, budget: nat)
    requires InvK(s) && CheckRequest(r).None? && Pending(writes)
    requires writes != [] ==>
      if writes[0].InsertHeader? then id == |s.books.journals| else id < |s.books.journals| && Open(s.books.journals[id])
    ensures InvK(Execute(s, key, id, r, writes, budget).0)
    decreases |writes|
  {
    hide InvK, Perform, CheckRequest, Open;
    if writes != [] && budget > 0 {
      PerformKeeps(s, key, id, r, writes[0]);
      var (t, refusal) := Perform(s, key, id, r, writes[0]);
      if refusal.None? { ExecuteKeeps(t, key, id, r, writes[1..], budget - 1); }
    }
  }

  lemma TryKeeps(s: Keyed, key: string, r: Request, budget: nat)
    requires InvK(s)
    ensures InvK(TryPost(s, key, r, budget).0)
  {
    hide Inv, Execute, CheckRequest, Open;
    if CheckRequest(r).None? && !PostedUnder(s, key) {
      var drafted := key in s.keys;
      ExecuteKeeps(s, key, if drafted then s.keys[key] else |s.books.journals|, r, Writes(r, drafted), budget);
    }
  }

  lemma TakeKeeps(s: Keyed, step: KeyedStep)
    requires InvK(s)
    ensures InvK(Take(s, step))
  {
    hide Inv, TryPost, Apply, Sum;
    match step
    case Try(key, r, budget) => TryKeeps(s, key, r, budget);
    case Other(other) =>
      ApplyKeeps(s.books, other);
      R.ApplyEvolves(s.books, other);
      assert forall i :: 0 <= i < |s.books.journals| ==> Apply(s.books, other).journals[i].kind == s.books.journals[i].kind;
  }

  /** The invariant holds over every run of operations and attempts, wherever these were cut short. */
  lemma {:induction false} RunKeepsInv(s: Keyed, steps: seq<KeyedStep>)
    requires InvK(s)
    ensures InvK(TakeAll(s, steps))
  {
    hide InvK, Take;
    if steps != [] {
      RunKeepsInv(s, steps[..|steps| - 1]);
      TakeKeeps(TakeAll(s, steps[..|steps| - 1]), steps[|steps| - 1]);
    }
  }

  // ---- Nothing enters a closed period ----

  /** A write posts at most the rows of one journal and touches neither periods nor closings. */
  lemma PerformGrows(s: Keyed, key: string, id: nat, r: Request, w: Write)
    ensures var t := Perform(s, key, id, r, w).0;
      RowsGrow(s.books, t.books) && PeriodsEvolve(s.books, t.books)
  {
    hide PostJournal, ClosedOn, Wanted, Rewritten;
    PostGrows(s.books, id);
    PostFrame(s.books, id);
  }

  lemma {:induction false} ExecuteGrows(s: Keyed, key: string, id: nat, r: Request, writes: seq<Write>, budget: nat)
    ensures var t := Execute(s, key, id, r, writes, budget).0;
      RowsGrow(s.books, t.books) && PeriodsEvolve(s.books, t.books)
    decreases |writes|
  {
    hide RowsGrow, PeriodsEvolve, Perform;
    GrowReflexive(s.books);
    if writes != [] && budget > 0 {
      PerformGrows(s, key, id, r, writes[0]);
      var (t, refusal) := Perform(s, key, id, r, writes[0]);
      ExecuteGrows(t, key, id, r, writes[1..], budget - 1);
      GrowTransitive(s.books, t.books, Execute(t, key, id, r, writes[1..], budget - 1).0.books);
    }
  }

  lemma TakeGrows(s: Keyed, step: KeyedStep)
    ensures RowsGrow(s.books, Take(s, step).books) && PeriodsEvolve(s.books, Take(s, step).books)
  {
    hide RowsGrow, PeriodsEvolve, Execute, Apply, CheckRequest;
    GrowReflexive(s.books);
    match step
    case Try(key, r, budget) =>
      var drafted := key in s.keys;
      ExecuteGrows(s, key, if drafted then s.keys[key] else |s.books.journals|, r, Writes(r, drafted), budget);
    case Other(other) => ApplyGrows(s.books, other);
  }

  lemma {:induction false} RunGrowsToo(s: Keyed, steps: seq<KeyedStep>)
    ensures RowsGrow(s.books, TakeAll(s, steps).books) && PeriodsEvolve(s.books, TakeAll(s, steps).books)
  {
    hide Take, RowsGrow, PeriodsEvolve;
    if steps == [] {
      GrowReflexive(s.books);
    } else {
      var t := TakeAll(s, steps[..|steps| - 1]);
      RunGrowsToo(s, steps[..|steps| - 1]);
      TakeGrows(t, steps[|steps| - 1]);
      GrowTransitive(s.books, t.books, Take(t, steps[|steps| - 1]).books);
    }
  }

  /** A closed year stays final when keyed attempts and crashes follow it too. */
  lemma ClosedYearStaysFinal(s: Keyed, p: nat, currency: string, after: seq<KeyedStep>, a: Account)
    requires InvK(s) && CloseYear(s.books, p, currency).1.Done?
    ensures var closed := CloseYear(s.books, p, currency).0;
      var t := TakeAll(s.(books := closed), after).books;
      && p < |t.periods| && t.periods[p] == s.books.periods[p].(closed := true)
      && Filter(t.rows, DatedIn(Span(t.periods[p]))) == Filter(closed.rows, DatedIn(Span(t.periods[p])))
      && (a in t.chart && a.Listed() && IsProfitAndLoss(a.kind) ==> Movement(t.rows, a.id, Span(t.periods[p])) == 0)
      && (a in s.books.chart && IsProfitAndLoss(a.kind) ==>
            Movement(t.rows, a.id, Span(t.periods[p])) == if a.Listed() then 0 else Movement(s.books.rows, a.id, Span(t.periods[p])))
  {
    hide CloseYear, TakeAll, Movement, Inv, RowsGrow, PeriodsEvolve, KeysOk, Apply;
    var closed := s.(books := CloseYear(s.books, p, currency).0);
    CloseIsTaken(s, p, currency);
    TakeKeeps(s, Other(CloseStep(p, currency)));
    RunKeepsInv(closed, after);
    RunGrowsToo(closed, after);
    FinalAfterClose(s.books, p, currency, TakeAll(closed, after).books, a);
  }

  lemma CloseIsTaken(s: Keyed, p: nat, currency: string)
    ensures Take(s, Other(CloseStep(p, currency))) == s.(books := CloseYear(s.books, p, currency).0)
  {
    hide CloseYear;
  }

  /** The earnings on a balance sheet are those no closed year has absorbed, over these runs as well. */
  lemma EarningsStayUnclosed(s: Keyed, steps: seq<KeyedStep>, date: int)
    requires InvK(s)
    ensures var t := TakeAll(s, steps).books;
      EarningsOf(t, t.rows, date) == EarningsOf(t, Filter(t.rows, OutsideYears(t, date)), date) + RepeatedProfit(t, date)
  {
    hide TakeAll, Inv, RepeatedProfit, EarningsOf;
    RunKeepsInv(s, steps);
    EarningsOutside(TakeAll(s, steps).books, date);
  }

  // ---- Reversals ----

  lemma ReversalIsKept(b: Books, c: Books, id: nat, n: nat, again: int)
    requires KeyedJournals.Kept(b, c) && id < |b.journals| && n < |b.journals|
    requires b.journals[id].status.Posted? && b.journals[n].status.Posted? && Reverses(b.journals[n], id)
    ensures Reverse(c, id, again) == (c, Refused(AlreadyReversed))
  {
    assert c.journals[n] == b.journals[n].(reversedBy := c.journals[n].reversedBy) && c.journals[n] in c.journals;
    assert c.journals[id] == b.journals[id].(reversedBy := c.journals[id].reversedBy);
  }

  /** A journal that has been reversed cannot be reversed again, whatever attempts and operations come in between. */
  lemma ReversedOnceStays(s: Keyed, id: nat, date: int, steps: seq<KeyedStep>, again: int)
    requires Inv(s.books) && Once(s) && Reverse(s.books, id, date).1.Done?
    ensures var t := TakeAll(s.(books := Reverse(s.books, id, date).0), steps).books;
      Reverse(t, id, again) == (t, Refused(AlreadyReversed))
  {
    hide Inv, BooksOnce, KeyedJournals.Kept, Reverse, TakeAll;
    var reversed := s.(books := Reverse(s.books, id, date).0);
    R.ReverseLeaves(s.books, id, date);
    ReverseOnce(s.books, id, date);
    KeptLength(s.books, reversed.books);
    RunPostsOnce(reversed, steps);
    ReversalIsKept(reversed.books, TakeAll(reversed, steps).books, id, |s.books.journals|, again);
  }

  // ---- How far the ledger can be out of balance ----

  lemma PerformNet(s: Keyed, key: string, id: nat, r: Request, w: Write, window: Window)
    requires InvK(s)
    ensures Net(Perform(s, key, id, r, w).0.books.rows, window) == Net(s.books.rows, window)
  {
    hide PostJournal, Net, Inv, KeysOk, Wanted, Rewritten;
    InvHonest(s.books, id);
    PostNet(s.books, id, window);
  }

  lemma {:induction false} ExecuteNet(
      s: Keyed, key: string, id: nat, r: Request, writes: seq<Write>, budget: nat, window: Window)
    requires InvK(s) && CheckRequest(r).None? && Pending(writes)
    requires writes != [] ==>
      if writes[0].InsertHeader? then id == |s.books.journals| else id < |s.books.journals| && Open(s.books.journals[id])
    ensures Net(Execute(s, key, id, r, writes, budget).0.books.rows, window) == Net(s.books.rows, window)
    decreases |writes|
  {
    hide InvK, Perform, CheckRequest, Open, Net;
    if writes != [] && budget > 0 {
      PerformNet(s, key, id, r, writes[0], window);
      PerformKeeps(s, key, id, r, writes[0]);
      var (t, refusal) := Perform(s, key, id, r, writes[0]);
      if refusal.None? { ExecuteNet(t, key, id, r, writes[1..], budget - 1, window); }
    }
  }

  /** An attempt never moves the net of the ledger, wherever it stops. */
  lemma TryNet(s: Keyed, key: string, r: Request, budget: nat, window: Window)
    requires InvK(s)
    ensures Net(TryPost(s, key, r, budget).0.books.rows, window) == Net(s.books.rows, window)
  {
    hide Inv, Execute, CheckRequest, Open, Net;
    if CheckRequest(r).None? && !PostedUnder(s, key) {
      var drafted := key in s.keys;
      ExecuteNet(s, key, if drafted then s.keys[key] else |s.books.journals|, r, Writes(r, drafted), budget, window);
    }
  }

  /** The ordinary operations of a run. */
  function Ordinary(steps: seq<KeyedStep>): seq<Step> {
    if steps == [] then []
    else Ordinary(steps[..|steps| - 1]) + if steps[|steps| - 1].Other? then [steps[|steps| - 1].step] else []
  }

  /** Debits and credits drift apart by what the ordinary documents allow: attempts and crashes add nothing. */
  lemma {:induction false} DriftIsOfDocuments(s: Keyed, steps: seq<KeyedStep>, w: Window)
    requires InvK(s)
    ensures Abs(Net(TakeAll(s, steps).books.rows, w) - Net(s.books.rows, w)) <= TotalSlack(Ordinary(steps))
    ensures ExactDocuments(Ordinary(steps)) ==> Net(TakeAll(s, steps).books.rows, w) == Net(s.books.rows, w)
  {
    hide InvK, Take, Net, Slack, PostedNet;
    if steps != [] {
      var init, last := steps[..|steps| - 1], steps[|steps| - 1];
      DriftIsOfDocuments(s, init, w);
      RunKeepsInv(s, init);
      TakeDrift(TakeAll(s, init), last, w);
      OrdinaryStep(init, last);
      assert steps == init + [last];
    }
  }

  lemma OrdinaryStep(init: seq<KeyedStep>, last: KeyedStep)
    ensures var more := if last.Other? then [last.step] else [];
      && Ordinary(init + [last]) == Ordinary(init) + more
      && TotalSlack(Ordinary(init + [last])) == TotalSlack(Ordinary(init)) + (if last.Other? then Slack(last.step) else 0)
      && (ExactDocuments(Ordinary(init + [last])) ==>
            && ExactDocuments(Ordinary(init))
            && (last.Other? && last.step.DocumentStep? ==> PostedNet(last.step.doc.lines) == 0))
  {
    hide Slack, PostedNet;
    assert (init + [last])[..|init|] == init;
    if last.Other? {
      var ordinary := Ordinary(init);
      assert (ordinary + [last.step])[..|ordinary|] == ordinary;
      assert Ordinary(init + [last]) == ordinary + [last.step];
      assert last.step in ordinary + [last.step] && forall step :: step in ordinary ==> step in ordinary + [last.step];
    } else {
      assert Ordinary(init) + [] == Ordinary(init);
    }
  }

  lemma TakeDrift(s: Keyed, step: KeyedStep, w: Window)
    requires InvK(s)
    ensures var moved := Net(Take(s, step).books.rows, w) - Net(s.books.rows, w);
      && Abs(moved) <= (if step.Other? then Slack(step.step) else 0)
      && ((step.Other? && step.step.DocumentStep? ==> PostedNet(step.step.doc.lines) == 0) ==> moved == 0)
  {
    hide Inv, KeysOk, TryPost, Apply, Net, PostedNet, Slack;
    match step
    case Try(key, r, budget) => TryNet(s, key, r, budget, w);
    case Other(other) => ApplyDrift(s.books, other, w);
  }

  /** So the reports are out by the rows on header accounts and what the ordinary documents allow, and by nothing else. */
  lemma ReportsAfterKeyedRun(steps: seq<KeyedStep>, w: Window)
    ensures var t := TakeAll(Keyed(EMPTY, map[]), steps).books;
      var balances := Aggregate(t.chart, t.rows, w, AllKinds);
      var tb := TrialBalanceOf(balances);
      && Abs(tb.totalDebit - tb.totalCredit + HeaderNet(t, w)) <= TotalSlack(Ordinary(steps))
      && (ExactDocuments(Ordinary(steps)) ==>
            && tb.totalDebit - tb.totalCredit == -HeaderNet(t, w) && (tb.isBalanced <==> Abs(HeaderNet(t, w)) < CENT)
            && (SheetDifference(balances) == 0 <==> HeaderNet(t, w) == 0))
  {
    hide TakeAll, TrialBalanceOf, SheetDifference, Aggregate, HeaderNet, ExactDocuments, TotalSlack, Inv, KeysOk;
    StartIsOk();
    RunKeepsInv(Keyed(EMPTY, map[]), steps);
    DriftIsOfDocuments(Keyed(EMPTY, map[]), steps, w);
    ReportsOfNet(TakeAll(Keyed(EMPTY, map[]), steps).books, w);
  }
}
